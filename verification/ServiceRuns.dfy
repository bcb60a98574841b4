// What every run of service commands keeps, with parsing failing at any point.

module ServiceRuns {
  import opened Common
  import opened Registries
  import opened Text
  import opened Services

  // ---------- The first entry of a name, through every change of the list ----------

  function Lead(cfg: seq<Entry>, name: string): (r: Option<Entry>)
    ensures r.Some? ==> r.value.name == name && r.value in cfg
    ensures r.Some? <==> Listed(cfg, name)
  {
    if Listed(cfg, name) then Some(cfg[First(cfg, name)]) else None
  }

  lemma {:induction false} LeadOfPair(a: seq<Entry>, b: seq<Entry>, name: string)
    ensures Lead(a + b, name) == if Listed(a, name) then Lead(a, name) else Lead(b, name)
    ensures Lead(a + b, name).Some? <==> Lead(a, name).Some? || Lead(b, name).Some?
  {
    if a == [] {
      assert a + b == b;
    } else {
      assert (a + b)[1..] == a[1..] + b;
      LeadOfPair(a[1..], b, name);
      LeadOfTail(a + b, name);
      LeadOfTail(a, name);
    }
  }

  lemma LeadOfTail(a: seq<Entry>, name: string)
    requires a != []
    ensures Lead(a, name) == if a[0].name == name then Some(a[0]) else Lead(a[1..], name)
  {
  }

  // Lists with the same names in the same places have their first entries in the same places.
  lemma SameLabels(a: seq<Entry>, b: seq<Entry>, x: string)
    requires |a| == |b| && forall i :: 0 <= i < |a| ==> a[i].name == b[i].name
    ensures First(a, x) == First(b, x)
  {
    var i, j := First(a, x), First(b, x);
    assert i < |a| ==> b[i].name == x;
    assert j < |b| ==> a[j].name == x;
  }

  lemma TagTwice(e: Entry, on: bool)
    ensures Tag(Tag(e, on), on) == Tag(e, on)
  {
    if on {
      var m := if e.metadata.Some? then e.metadata.value else map[];
      assert m[PAUSED := Flag(true)][PAUSED := Flag(true)] == m[PAUSED := Flag(true)];
    } else if e.metadata.Some? {
      assert (e.metadata.value - {PAUSED}) - {PAUSED} == e.metadata.value - {PAUSED};
    }
  }

  // Tagging names keeps every name in place and tags exactly the first entries of those names.
  lemma {:induction false} TaggedAt(cfg: seq<Entry>, names: seq<string>, on: bool, i: nat)
    requires i < |cfg|
    ensures Tagged(cfg, names, on)[i]
            == if cfg[i].name in names && First(cfg, cfg[i].name) == i then Tag(cfg[i], on) else cfg[i]
  {
    if names != [] {
      var k := |names| - 1;
      assert names == names[..k] + [names[k]];
      var p := Tagged(cfg, names[..k], on);
      forall j | 0 <= j < |cfg| ensures p[j].name == cfg[j].name {
        TaggedAt(cfg, names[..k], on, j);
      }
      TaggedAt(cfg, names[..k], on, i);
      SameLabels(cfg, p, names[k]);
      TagTwice(cfg[i], on);
    }
  }

  lemma LeadOfTagged(cfg: seq<Entry>, names: seq<string>, on: bool, x: string)
    ensures Lead(Tagged(cfg, names, on), x)
            == if x in names && Listed(cfg, x) then Some(Tag(Lead(cfg, x).value, on)) else Lead(cfg, x)
  {
    var t := Tagged(cfg, names, on);
    forall j | 0 <= j < |cfg| ensures t[j].name == cfg[j].name {
      TaggedAt(cfg, names, on, j);
    }
    SameLabels(cfg, t, x);
    if Listed(cfg, x) {
      TaggedAt(cfg, names, on, First(cfg, x));
    }
  }

  // The last new configuration with the name of an entry, or the entry itself.
  function Latest(data: seq<Entry>, e: Entry): (r: Entry)
    ensures r.name == e.name
    ensures (r in data && r.name == e.name) || (r == e && forall d :: d in data ==> d.name != e.name)
  {
    if data == [] then e
    else if data[|data| - 1].name == e.name then data[|data| - 1]
    else Latest(data[..|data| - 1], e)
  }

  // An update replaces exactly the first entries of the names as they were written in the request.
  lemma {:induction false} RenewedAt(cfg: seq<Entry>, data: seq<Entry>, i: nat)
    requires i < |cfg|
    ensures Renewed(cfg, data)[i] == if First(cfg, cfg[i].name) == i then Latest(data, cfg[i]) else cfg[i]
  {
    if data != [] {
      var k := |data| - 1;
      var p := Renewed(cfg, data[..k]);
      forall j | 0 <= j < |cfg| ensures p[j].name == cfg[j].name {
        RenewedAt(cfg, data[..k], j);
      }
      RenewedAt(cfg, data[..k], i);
      SameLabels(cfg, p, data[k].name);
    }
  }

  lemma LeadOfRenewed(cfg: seq<Entry>, data: seq<Entry>, x: string)
    ensures Lead(Renewed(cfg, data), x)
            == if Listed(cfg, x) then Some(Latest(data, Lead(cfg, x).value)) else None
  {
    var t := Renewed(cfg, data);
    forall j | 0 <= j < |cfg| ensures t[j].name == cfg[j].name {
      RenewedAt(cfg, data, j);
    }
    SameLabels(cfg, t, x);
    if Listed(cfg, x) {
      RenewedAt(cfg, data, First(cfg, x));
    }
  }

  lemma LeadOfOne(e: Entry, x: string)
    ensures Lead([e], x) == if e.name == x then Some(e) else None
  {
  }

  lemma {:induction false} LeadOfWithout(cfg: seq<Entry>, names: seq<string>, x: string)
    ensures Lead(Without(cfg, names), x) == if x in names then None else Lead(cfg, x)
  {
    if cfg != [] {
      var p, e := cfg[..|cfg| - 1], cfg[|cfg| - 1];
      assert cfg == p + [e];
      LeadOfWithout(p, names, x);
      LeadOfPair(p, [e], x);
      LeadOfPair(Without(p, names), [e], x);
      LeadOfOne(e, x);
    }
  }

  // ---------- The invariant ----------

  // Every registered service has a number of its own that was handed out and served.
  ghost predicate Sound(s: State) {
    && (forall a, b :: a in s.registry && b in s.registry && s.registry[a] == s.registry[b] ==> a == b)
    && (forall a :: a in s.registry ==> s.registry[a] < s.parses && s.registry[a] in s.served)
    && (forall a :: a in s.registry ==> a != "" && Clean(a) == a)
    && (forall h :: h in s.closed ==> h < s.parses)
  }

  predicate Open(s: State, a: string) {
    a in s.registry && s.registry[a] !in s.closed
  }

  // The name has an entry, and the service is open unless the first entry is flagged paused.
  predicate Healthy(s: State, a: string) {
    Lead(s.config, a).Some? && (Flagged(Lead(s.config, a).value) || Open(s, a))
  }

  ghost predicate Inv(s: State) {
    Sound(s) && forall a :: a in s.registry ==> Healthy(s, a)
  }

  lemma CleanName(name: string)
    ensures Clean(Clean(name)) == Clean(name)
  {
    TrimTrims(name, GoSpace);
    TrimTrims(Clean(name), GoSpace);
  }

  ghost predicate AllClean(names: seq<string>) {
    forall n :: n in names ==> Clean(n) == n
  }

  // What replacing services one after another does to the table.
  ghost predicate Replaces(s: State, names: seq<string>, t: State) {
    && t.registry.Keys == s.registry.Keys
    && (forall a :: a in s.registry ==>
          if a in names then t.registry[a] >= s.parses && Open(t, a)
          else t.registry[a] == s.registry[a] && (Open(t, a) <==> Open(s, a)))
  }

  lemma SwapSound(p: State, name: string)
    requires Sound(p) && name in p.registry && name != "" && Clean(name) == name
    ensures Sound(Swap(p, name)) && Open(Swap(p, name), name)
    ensures forall a :: a in p.registry && a != name ==> (Open(Swap(p, name), a) <==> Open(p, a))
  {
    hide Clean;
  }

  lemma SwapReplaces(s: State, names: seq<string>, p: State, name: string)
    requires Sound(p) && Known(s, name) && Clean(name) == name && s.parses <= p.parses && Replaces(s, names, p)
    ensures Sound(Swap(p, name)) && Replaces(s, names + [name], Swap(p, name))
  {
    hide Clean, Sound, Open;
    SwapSound(p, name);
  }

  lemma {:induction false} SwappedReplaces(s: State, names: seq<string>)
    requires Sound(s) && AllKnown(s, names) && AllClean(names)
    ensures Sound(Swapped(s, names)) && Replaces(s, names, Swapped(s, names))
  {
    if names != [] {
      var k := |names| - 1;
      assert names[..k] + [names[k]] == names;
      SwappedReplaces(s, names[..k]);
      SwapReplaces(s, names[..k], Swapped(s, names[..k]), names[k]);
    }
  }

  // A name of the batch refers to its old service until that one is closed.
  lemma {:induction false} SwappedOld(s: State, names: seq<string>, a: string)
    requires a in s.registry
    ensures a in Swapped(s, names).registry
    ensures if a in names then s.registry[a] in Swapped(s, names).closed
            else Swapped(s, names).registry[a] == s.registry[a]
  {
    if names != [] {
      var k := |names| - 1;
      assert names == names[..k] + [names[k]];
      SwappedOld(s, names[..k], a);
    }
  }

  lemma DropSound(s: State, name: string)
    requires Sound(s)
    ensures Sound(DropParsed(s, name))
    ensures forall a :: a in s.registry && a != name ==> (Open(DropParsed(s, name), a) <==> Open(s, a))
  {
    hide Clean;
  }

  lemma {:induction false} AddedFacts(m: map<string, Handle>, names: seq<string>, base: nat)
    ensures var r := Added(m, names, base);
      && r.Keys == m.Keys + SetOf(names)
      && (forall a :: a in m && a !in names ==> r[a] == m[a])
      && (forall a :: a in names ==> base <= r[a] < base + |names| && names[r[a] - base] == a)
  {
    if names != [] {
      var k := |names| - 1;
      assert names[..k] + [names[k]] == names;
      AddedFacts(m, names[..k], base);
    }
  }

  lemma JoinedOpen(s: State, names: seq<string>, a: string)
    requires Sound(s) && a in Joined(s, names).registry
    ensures a in names ==> Open(Joined(s, names), a)
    ensures a !in names ==> a in s.registry && (Open(Joined(s, names), a) <==> Open(s, a))
    ensures Joined(s, names).registry[a] < s.parses + |names| && Joined(s, names).registry[a] in Joined(s, names).served
  {
    hide Clean;
    AddedFacts(s.registry, names, s.parses);
  }

  lemma JoinedApart(s: State, names: seq<string>, a: string, b: string)
    requires Sound(s) && a in Joined(s, names).registry && b in Joined(s, names).registry
    requires Joined(s, names).registry[a] == Joined(s, names).registry[b]
    ensures a == b
  {
    hide Clean;
    AddedFacts(s.registry, names, s.parses);
  }

  lemma JoinedSound(s: State, names: seq<string>)
    requires Sound(s) && forall n :: n in names ==> n != "" && Clean(n) == n
    ensures Sound(Joined(s, names))
  {
    hide Clean, Joined, Open;
    var t := Joined(s, names);
    forall a | a in t.registry ensures t.registry[a] < t.parses && t.registry[a] in t.served && a != "" && Clean(a) == a {
      JoinedOpen(s, names, a);
    }
    forall a, b | a in t.registry && b in t.registry && t.registry[a] == t.registry[b] ensures a == b {
      JoinedApart(s, names, a, b);
    }
  }

  lemma LeadOfNamed(data: seq<Entry>, name: string)
    requires name in NamesOf(data)
    ensures Listed(NamedAll(data), name)
  {
    var i :| 0 <= i < |data| && NamesOf(data)[i] == name;
    assert NamedAll(data)[i].name == name;
  }

  lemma AcceptedHealthy(s: State, data: seq<Entry>, t: State, a: string)
    requires t.config == s.config + NamedAll(data) && a in t.registry
    requires a in NamesOf(data) ==> Open(t, a)
    requires a !in NamesOf(data) ==> Healthy(s, a) && (Open(t, a) <==> Open(s, a))
    ensures Healthy(t, a)
  {
    hide Clean, Open, Flagged;
    LeadOfPair(s.config, NamedAll(data), a);
    if a in NamesOf(data) {
      LeadOfNamed(data, a);
    }
  }

  lemma FitNames(parse: Parser, s: State, data: seq<Entry>)
    requires FitUpTo(parse, s, data, |data|)
    ensures forall n :: n in NamesOf(data) ==> n != "" && Clean(n) == n && n !in s.registry
  {
    hide Clean;
    forall n | n in NamesOf(data) ensures n != "" && Clean(n) == n && n !in s.registry {
      var i :| 0 <= i < |data| && NamesOf(data)[i] == n;
      assert Fit(parse, s, data[i], i);
      CleanName(data[i].name);
    }
  }

  lemma AcceptedKeeps(parse: Parser, s: State, data: seq<Entry>, o: Outcome, t: State)
    requires Inv(s) && Accepted(parse, s, data, o, t)
    ensures Inv(t)
  {
    hide Clean, Sound, Open, Healthy, Joined;
    var names, q := NamesOf(data), Joined(s, NamesOf(data));
    FitNames(parse, s, data);
    JoinedSound(s, names);
    SameSound(q, t);
    forall a | a in t.registry ensures Healthy(t, a) {
      JoinedOpen(s, names, a);
      SameOpen(q, t, a);
      AcceptedHealthy(s, data, t, a);
    }
  }

  // Parsing more, and closing what was never registered, harms nothing.
  lemma ParsedMore(s: State, t: State)
    requires Inv(s) && t.registry == s.registry && t.config == s.config && t.served == s.served
    requires s.parses <= t.parses && s.closed <= t.closed
    requires forall h :: h in t.closed && h !in s.closed ==> s.parses <= h < t.parses
    ensures Inv(t)
  {
    hide Clean;
    forall a | a in t.registry ensures Healthy(t, a) {
      assert Healthy(s, a);
    }
  }

  lemma CreateKeeps(parse: Parser, s: State, data: seq<Entry>, o: Outcome, t: State)
    requires Inv(s) && Created(parse, s, data, o, t)
    ensures Inv(t)
  {
    hide Inv, Accepted, Clean, NamesOf;
    if data != [] {
      if k: nat :| RefusedAt(parse, s, data, k, o, t) {
        ParsedMore(s, t);
      } else if k: nat :| RepeatedAt(parse, s, data, k, o, t) {
        ParsedMore(s, t);
      } else {
        AcceptedKeeps(parse, s, data, o, t);
      }
    }
  }

  lemma CleanedClean(raw: seq<string>)
    ensures AllClean(Cleaned(raw))
  {
    forall n | n in Cleaned(raw) ensures Clean(n) == n {
      var i :| 0 <= i < |raw| && Cleaned(raw)[i] == n;
      CleanName(raw[i]);
    }
  }

  lemma NamesClean(data: seq<Entry>)
    ensures AllClean(NamesOf(data))
  {
    forall n | n in NamesOf(data) ensures Clean(n) == n {
      var i :| 0 <= i < |data| && NamesOf(data)[i] == n;
      CleanName(data[i].name);
    }
  }

  lemma PrefixKnown(s: State, names: seq<string>, k: nat)
    requires k <= |names| && AllKnown(s, names) && AllClean(names)
    ensures AllKnown(s, names[..k]) && AllClean(names[..k])
  {
  }

  // The services before the one that fails run anew, the failed one is gone, no other is touched.
  lemma StoppedKeeps(s: State, names: seq<string>, n: nat)
    requires Inv(s) && n < |names| && AllKnown(s, names) && AllClean(names)
    ensures Inv(DropParsed(Swapped(s, names[..n]), names[n]))
  {
    hide Clean;
    PrefixKnown(s, names, n);
    SwappedReplaces(s, names[..n]);
    DropSound(Swapped(s, names[..n]), names[n]);
  }

  lemma SameOpen(q: State, t: State, a: string)
    requires q.registry == t.registry && q.closed == t.closed
    ensures Open(q, a) == Open(t, a)
  {
  }

  lemma SameSound(q: State, t: State)
    requires q.(config := []) == t.(config := []) && Sound(q)
    ensures Sound(t)
  {
    assert t == q.(config := t.config);
  }

  // A name that is not in the batch is not in the request either: its entry stays.
  lemma UpdateHealthy(s: State, data: seq<Entry>, t: State, a: string)
    requires t.config == Renewed(s.config, data) && Healthy(s, a)
    requires Clean(a) == a && (a in NamesOf(data) ==> Open(t, a))
    requires a !in NamesOf(data) ==> (Open(t, a) <==> Open(s, a))
    ensures Healthy(t, a)
  {
    hide Clean, Open, Flagged;
    LeadOfRenewed(s.config, data, a);
    var e := Latest(data, Lead(s.config, a).value);
    if e in data {
      var i :| 0 <= i < |data| && data[i] == e;
      assert NamesOf(data)[i] == a;
    }
  }

  lemma UpdateDoneKeeps(s: State, data: seq<Entry>)
    requires Inv(s) && AllKnown(s, NamesOf(data))
    ensures Inv(Swapped(s, NamesOf(data)).(config := Renewed(s.config, data)))
  {
    hide Clean, Open, Healthy, Lead;
    var names, q := NamesOf(data), Swapped(s, NamesOf(data));
    var t := q.(config := Renewed(s.config, data));
    NamesClean(data);
    SwappedReplaces(s, names);
    SameSound(q, t);
    forall a | a in t.registry ensures Healthy(t, a) {
      SameOpen(q, t, a);
      UpdateHealthy(s, data, t, a);
    }
  }

  lemma UpdateKeeps(parse: Parser, s: State, data: seq<Entry>, o: Outcome, t: State)
    requires Inv(s) && Updated(parse, s, data, o, t)
    ensures Inv(t)
  {
    hide Clean, Inv;
    NamesClean(data);
    if t != s {
      if n: nat :| UpdateStops(parse, s, data, n, o, t) {
        StoppedKeeps(s, NamesOf(data), n);
      } else {
        UpdateDoneKeeps(s, data);
      }
    }
  }

  lemma DeleteHealthy(s: State, names: seq<string>, t: State, a: string)
    requires Sound(s) && t.config == Without(s.config, names) && t.registry == s.registry - SetOf(names)
    requires t.closed == s.closed + HandlesOf(s.registry, names) && a in t.registry && Healthy(s, a)
    ensures Healthy(t, a)
  {
    hide Clean, Flagged;
    LeadOfWithout(s.config, names, a);
  }

  lemma DeletedSound(s: State, names: seq<string>, t: State)
    requires Sound(s) && t.registry == s.registry - SetOf(names)
    requires t.closed == s.closed + HandlesOf(s.registry, names) && t.served == s.served && t.parses == s.parses
    ensures Sound(t)
  {
    hide Clean;
  }

  lemma DeleteKeeps(s: State, raw: seq<string>, o: Outcome, t: State)
    requires Inv(s) && Deleted(s, raw, o, t)
    ensures Inv(t)
  {
    hide Healthy, Sound, Clean;
    if t != s {
      DeletedSound(s, Cleaned(raw), t);
      forall a | a in t.registry ensures Healthy(t, a) {
        DeleteHealthy(s, Cleaned(raw), t, a);
      }
    }
  }

  // The branch of a pause that finds no configuration is never taken.
  lemma PauseNeverStops(parse: Parser, s: State, names: seq<string>, k: nat, o: Outcome, t: State)
    requires Inv(s) && AllKnown(s, names)
    ensures !PauseStops(parse, s, names, k, o, t)
  {
    if k < |names| {
      assert Known(s, names[k]);
    }
  }

  lemma TagFlags(e: Entry)
    ensures Flagged(Tag(e, true))
  {
  }

  lemma PauseHealthy(s: State, names: seq<string>, t: State, a: string)
    requires Sound(s) && t.config == Tagged(s.config, names, true) && t.registry == s.registry
    requires t.closed == s.closed + HandlesOf(s.registry, names) && a in t.registry && Healthy(s, a)
    ensures Healthy(t, a)
  {
    hide Clean, Flagged, Tag;
    LeadOfTagged(s.config, names, true, a);
    TagFlags(Lead(s.config, a).value);
  }

  lemma PausedSound(s: State, names: seq<string>, t: State)
    requires Sound(s) && t == s.(closed := t.closed, config := t.config)
    requires t.closed == s.closed + HandlesOf(s.registry, names)
    ensures Sound(t)
  {
    hide Clean;
  }

  lemma PauseDoneKeeps(s: State, names: seq<string>, o: Outcome, t: State)
    requires Inv(s) && PauseDone(s, names, o, t)
    ensures Inv(t)
  {
    hide Healthy, Sound, Tagged;
    PausedSound(s, names, t);
    forall a | a in t.registry ensures Healthy(t, a) {
      PauseHealthy(s, names, t, a);
    }
  }

  lemma PauseKeeps(parse: Parser, s: State, raw: seq<string>, o: Outcome, t: State)
    requires Inv(s) && Paused(parse, s, raw, o, t)
    ensures Inv(t)
  {
    hide Inv, PauseStops, PauseDone;
    if t != s {
      if k: nat :| PauseStops(parse, s, Cleaned(raw), k, o, t) {
        PauseNeverStops(parse, s, Cleaned(raw), k, o, t);
      } else {
        PauseDoneKeeps(s, Cleaned(raw), o, t);
      }
    }
  }

  // Only names flagged paused are selected, so flagging them again changes nothing.
  lemma {:induction false} FlaggedStay(cfg: seq<Entry>, names: seq<string>)
    requires forall n :: n in names ==> PausedIn(cfg, n)
    ensures Tagged(cfg, names, true) == cfg
  {
    forall i | 0 <= i < |cfg| ensures Tagged(cfg, names, true)[i] == cfg[i] {
      TaggedAt(cfg, names, true, i);
      if cfg[i].name in names && First(cfg, cfg[i].name) == i {
        var m := cfg[i].metadata.value;
        assert m[PAUSED := Flag(true)] == m;
      }
    }
  }

  lemma WithdrawKeeps(s: State, names: seq<string>)
    requires Inv(s) && forall n :: n in names ==> PausedIn(s.config, n)
    ensures Inv(Withdrawn(s, names)) && Withdrawn(s, names).config == s.config
  {
    hide Sound, Healthy, Tagged;
    var t := Withdrawn(s, names);
    FlaggedStay(s.config, names);
    PausedSound(s, names, t);
    forall a | a in t.registry ensures Healthy(t, a) {
      PauseHealthy(s, names, t, a);
    }
  }

  lemma ResumeHealthy(s: State, sel: seq<string>, t: State, a: string)
    requires t.config == Tagged(s.config, sel, false) && Healthy(s, a)
    requires a in sel ==> Open(t, a)
    requires a !in sel ==> (Open(t, a) <==> Open(s, a))
    ensures Healthy(t, a)
  {
    hide Open, Flagged, Tag;
    LeadOfTagged(s.config, sel, false, a);
  }

  lemma ResumeDoneKeeps(s: State, sel: seq<string>)
    requires Inv(s) && AllKnown(s, sel) && AllClean(sel)
    ensures Inv(Swapped(s, sel).(config := Tagged(s.config, sel, false)))
  {
    hide Clean, Healthy, Open, Tagged;
    var q := Swapped(s, sel);
    var t := q.(config := Tagged(s.config, sel, false));
    SwappedReplaces(s, sel);
    SameSound(q, t);
    forall a | a in t.registry ensures Healthy(t, a) {
      SameOpen(q, t, a);
      ResumeHealthy(s, sel, t, a);
    }
  }

  lemma SelectedKnown(s: State, names: seq<string>, sel: seq<string>)
    requires AllResumable(s, names) && AllClean(names) && forall n :: n in sel ==> n in names
    ensures AllKnown(s, sel) && AllClean(sel)
  {
    forall n | n in sel ensures Known(s, n) {
      assert Resumable(s, n);
    }
  }

  lemma ResumeStopsKeeps(parse: Parser, s: State, sel: seq<string>, n: nat, o: Outcome, t: State)
    requires Inv(s) && AllKnown(s, sel) && AllClean(sel) && forall x :: x in sel ==> PausedIn(s.config, x)
    requires AllListed(s.config, sel) && ResumeStops(parse, s, sel, n, o, t)
    ensures Inv(t) && t.config == s.config
  {
    hide Inv, Clean, PausedIn, Withdrawn;
    StoppedKeeps(s, sel, n);
    WithdrawKeeps(DropParsed(Swapped(s, sel[..n]), sel[n]), sel[..n]);
  }

  lemma ResumeKeeps(parse: Parser, s: State, raw: seq<string>, o: Outcome, t: State)
    requires Inv(s) && Resumed(parse, s, raw, o, t)
    ensures Inv(t)
  {
    hide Clean, Inv, ResumeStops, Swapped, Tagged, PausedIn, UnresumableAt;
    if t != s {
      var names := Cleaned(raw);
      var sel := Flags(s.config, names);
      CleanedClean(raw);
      SelectedKnown(s, names, sel);
      if n: nat :| ResumeStops(parse, s, sel, n, o, t) {
        ResumeStopsKeeps(parse, s, sel, n, o, t);
      } else {
        ResumeDoneKeeps(s, sel);
      }
    }
  }

  lemma StepKeeps(parse: Parser, s: State, c: Command, o: Outcome, t: State)
    requires Inv(s) && Step(parse, s, c, o, t)
    ensures Inv(t)
  {
    hide Inv, Created, Updated, Deleted, Paused, Resumed;
    match c {
      case Create(data) => CreateKeeps(parse, s, data, o, t);
      case Update(data) => UpdateKeeps(parse, s, data, o, t);
      case Delete(names) => DeleteKeeps(s, names, o, t);
      case Pause(names) => PauseKeeps(parse, s, names, o, t);
      case Resume(names) => ResumeKeeps(parse, s, names, o, t);
    }
  }

  // An agent that has registered nothing satisfies the invariant, whatever its configuration says.
  lemma InvAtStart(cfg: seq<Entry>)
    ensures Inv(State(map[], cfg, {}, {}, 0))
  {
  }

  // ---------- Runs ----------

  ghost predicate Run(parse: Parser, states: seq<State>, cs: seq<Command>, os: seq<Outcome>) {
    && |states| == |cs| + 1 == |os| + 1
    && (forall i :: 0 <= i < |cs| ==> Step(parse, states[i], cs[i], os[i], states[i + 1]))
  }

  // In every run, parsing failing at any point, every registered service has an entry and is open unless
  // its first entry is flagged paused.
  lemma {:induction false} EveryRunKeeps(parse: Parser, states: seq<State>, cs: seq<Command>, os: seq<Outcome>, i: nat)
    requires Run(parse, states, cs, os) && Inv(states[0]) && i <= |cs|
    ensures Inv(states[i])
  {
    hide Inv, Step;
    if i > 0 {
      EveryRunKeeps(parse, states, cs, os, i - 1);
      StepKeeps(parse, states[i - 1], cs[i - 1], os[i - 1], states[i]);
    }
  }
}
