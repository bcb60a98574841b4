// The agent that carries out the commands, changing its registry and its configuration in place.

module Agents {
  import opened Common
  import opened Registries
  import opened Text
  import opened Services
  import opened ServiceRuns

  // The services made by n parses in a row.
  predicate Numbered(svcs: seq<Handle>, n: nat, base: nat) {
    |svcs| == n && forall i :: 0 <= i < n ==> svcs[i] == base + i
  }

  lemma TakenBack(m: map<string, Handle>, names: seq<string>, base: nat)
    requires SetOf(names) !! m.Keys
    ensures Added(m, names, base) - SetOf(names) == m
  {
    AddedFacts(m, names, base);
  }

  lemma RegisteredAs(m: map<string, Handle>, names: seq<string>, base: nat, i: nat)
    requires i < |names| && Distinct(names)
    ensures names[i] in Added(m, names, base) && Added(m, names, base)[names[i]] == base + i
  {
    AddedFacts(m, names, base);
    assert names[i] in names;
  }

  lemma NextName(names: seq<string>, i: nat)
    requires i < |names| && Distinct(names)
    ensures names[i] in names && names[i] !in SetOf(names[..i]) && SetOf(names[..i + 1]) == SetOf(names[..i]) + {names[i]}
  {
    assert names[..i + 1] == names[..i] + [names[i]];
  }

  lemma NoRange(base: nat)
    ensures Range(base, base) == {}
  {
  }

  lemma RangeStep(base: nat, i: nat)
    ensures Range(base, base + i + 1) == Range(base, base + i) + {base + i}
  {
  }

  lemma HandlesStep(m: map<string, Handle>, names: seq<string>, i: nat)
    requires i < |names| && names[i] in m
    ensures HandlesOf(m, names[..i + 1]) == HandlesOf(m, names[..i]) + {m[names[i]]}
    ensures SetOf(names[..i + 1]) == SetOf(names[..i]) + {names[i]}
  {
    assert names[..i + 1] == names[..i] + [names[i]];
  }

  lemma SwappedStep(s: State, names: seq<string>, n: nat)
    requires n < |names|
    ensures Swapped(s, names[..n + 1]) == Swap(Swapped(s, names[..n]), names[n])
    ensures Swapped(s, names[..0]) == s
  {
    assert names[..n + 1][..n] == names[..n];
  }

  lemma NoHandles(m: map<string, Handle>)
    ensures HandlesOf(m, []) == {}
  {
  }

  lemma NoHandlesStep(m: map<string, Handle>, names: seq<string>, i: nat)
    requires i < |names| && names[i] !in m
    ensures HandlesOf(m, names[..i + 1]) == HandlesOf(m, names[..i])
  {
    assert names[..i + 1] == names[..i] + [names[i]];
  }

  ghost predicate Selected(s: State, sel: seq<string>, svcs: seq<Handle>, entries: seq<Entry>) {
    && |sel| == |svcs| == |entries|
    && (forall i :: 0 <= i < |sel| ==> Known(s, sel[i]) && svcs[i] == s.registry[sel[i]])
    && (forall i :: 0 <= i < |sel| ==> Listed(s.config, sel[i]) && entries[i] == s.config[First(s.config, sel[i])])
  }

  lemma NoneSelected(s: State)
    ensures Selected(s, [], [], []) && Flags(s.config, []) == []
  {
  }

  lemma SelectedNext(s: State, sel: seq<string>, svcs: seq<Handle>, entries: seq<Entry>, name: string)
    requires Selected(s, sel, svcs, entries) && Known(s, name) && Listed(s.config, name)
    ensures Selected(s, sel + [name], svcs + [s.registry[name]], entries + [s.config[First(s.config, name)]])
  {
    hide First;
  }

  lemma FlagsNext(cfg: seq<Entry>, names: seq<string>, i: nat)
    requires i < |names|
    ensures Flags(cfg, names[..i + 1]) == Flags(cfg, names[..i]) + (if PausedIn(cfg, names[i]) then [names[i]] else [])
  {
    hide PausedIn;
    assert names[..i + 1][..i] == names[..i];
  }

  lemma NoTags(cfg: seq<Entry>, on: bool)
    ensures Tagged(cfg, [], on) == cfg
  {
  }

  lemma TaggedStep(cfg: seq<Entry>, names: seq<string>, i: nat, on: bool)
    requires i < |names|
    ensures Tagged(cfg, names[..i + 1], on) == TagFirst(Tagged(cfg, names[..i], on), names[i], on)
  {
    assert names[..i + 1][..i] == names[..i];
  }

  lemma SwappedNone(s: State)
    ensures Swapped(s, []) == s
  {
  }

  lemma SelectedSizes(s: State, sel: seq<string>, svcs: seq<Handle>, entries: seq<Entry>)
    requires Selected(s, sel, svcs, entries)
    ensures |sel| == |svcs| == |entries| && AllKnown(s, sel) && AllListed(s.config, sel)
    ensures entries == EntriesOf(s.config, sel)
  {
    forall n | n in sel ensures Known(s, n) && Listed(s.config, n) {
      var i :| 0 <= i < |sel| && sel[i] == n;
    }
  }

  lemma SelectedOld(s: State, sel: seq<string>, svcs: seq<Handle>, entries: seq<Entry>, n: nat)
    requires Selected(s, sel, svcs, entries) && n < |sel|
    ensures var q := Swapped(s, sel[..n]);
      sel[n] != "" && sel[n] in q.registry && (svcs[n] == q.registry[sel[n]] || svcs[n] in q.closed)
  {
    SwappedOld(s, sel[..n], sel[n]);
  }

  lemma KnownPrefix(s: State, t: State, names: seq<string>, k: nat)
    requires k <= |names| && AllKnown(s, names) && t.registry == s.registry
    ensures AllKnown(t, names[..k]) && "" !in names[..k]
  {
    assert forall n :: n in names[..k] ==> n in names && Known(s, n) && Known(t, n);
  }

  class Configuration {
    var services: seq<Entry>

    constructor (services: seq<Entry>)
      ensures this.services == services
    {
      this.services := services;
    }

    method SetTag(name: string, on: bool)
      modifies this
      ensures services == TagFirst(old(services), name, on)
    {
      var i := 0;
      while i < |services|
        invariant 0 <= i <= |services| && services == old(services)
        invariant forall j :: 0 <= j < i ==> services[j].name != name
      {
        if services[i].name == name {
          services := services[i := Tag(services[i], on)];
          return;
        }
        i := i + 1;
      }
    }

    method Renew(e: Entry)
      modifies this
      ensures services == RenewFirst(old(services), e)
    {
      var i := 0;
      while i < |services|
        invariant 0 <= i <= |services| && services == old(services)
        invariant forall j :: 0 <= j < i ==> services[j].name != e.name
      {
        if services[i].name == e.name {
          services := services[i := e];
          return;
        }
        i := i + 1;
      }
    }

    method SetTags(names: seq<string>, on: bool)
      modifies this
      ensures services == Tagged(old(services), names, on)
    {
      hide Tag, TagFirst, Tagged;
      ghost var was := services;
      var i := 0;
      NoTags(was, on);
      while i < |names|
        invariant 0 <= i <= |names| && services == Tagged(was, names[..i], on)
      {
        SetTag(names[i], on);
        TaggedStep(was, names, i, on);
        i := i + 1;
      }
      assert names[..i] == names;
    }

    method RenewAll(data: seq<Entry>)
      modifies this
      ensures services == Renewed(old(services), data)
    {
      var i := 0;
      while i < |data|
        invariant 0 <= i <= |data| && services == Renewed(old(services), data[..i])
      {
        Renew(data[i]);
        assert data[..i + 1][..i] == data[..i];
        i := i + 1;
      }
      assert data[..i] == data;
    }

    method Append(entries: seq<Entry>)
      modifies this
      ensures services == old(services) + entries
    {
      var i := 0;
      while i < |entries|
        invariant 0 <= i <= |entries| && services == old(services) + entries[..i]
      {
        services := services + [entries[i]];
        i := i + 1;
      }
    }

    method Remove(names: seq<string>)
      modifies this
      ensures services == Without(old(services), names)
    {
      var was := services;
      services := [];
      var i := 0;
      while i < |was|
        invariant 0 <= i <= |was| && was == old(services) && services == Without(was[..i], names)
      {
        assert was[..i + 1][..i] == was[..i];
        if was[i].name !in names {
          services := services + [was[i]];
        }
        i := i + 1;
      }
      assert was[..i] == was;
    }

    method Find(name: string) returns (r: Option<Entry>)
      ensures r == if Listed(services, name) then Some(services[First(services, name)]) else None
    {
      var i := 0;
      while i < |services|
        invariant 0 <= i <= |services|
        invariant forall j :: 0 <= j < i ==> services[j].name != name
      {
        if services[i].name == name {
          return Some(services[i]);
        }
        i := i + 1;
      }
      return None;
    }
  }

  class Agent {
    const parser: Parser
    const registry: Registry
    const config: Configuration
    var served: set<Handle>
    var parses: nat

    constructor (parser: Parser, registry: Registry, config: Configuration)
      ensures this.parser == parser && this.registry == registry && this.config == config
      ensures served == {} && parses == 0
    {
      this.parser, this.registry, this.config := parser, registry, config;
      served, parses := {}, 0;
    }

    ghost function Now(): State
      reads this, registry, config
    {
      State(registry.m, config.services, registry.closed, served, parses)
    }

    // Parsing makes a new service that is open, or fails.
    method Parse(e: Entry) returns (svc: Option<Handle>)
      modifies this
      ensures Now() == old(Now()).(parses := old(parses) + 1)
      ensures svc == if parser(e, old(parses)) then Some(old(parses)) else None
    {
      svc := if parser(e, parses) then Some(parses) else None;
      parses := parses + 1;
    }

    method Serve(svc: Handle)
      modifies this
      ensures Now() == old(Now()).(served := old(served) + {svc})
    {
      served := served + {svc};
    }

    method CheckNames(names: seq<string>) returns (o: Outcome)
      ensures o == Done ==> AllKnown(Now(), names)
      ensures o != Done ==> exists k :: UnknownAt(Now(), names, k, o)
    {
      var i := 0;
      while i < |names|
        invariant 0 <= i <= |names| && AllKnown(Now(), names[..i])
      {
        if names[i] == "" {
          assert UnknownAt(Now(), names, i, Failed(NameRequired));
          return Failed(NameRequired);
        }
        var svc := registry.Get(names[i]);
        if svc.None? {
          assert UnknownAt(Now(), names, i, Failed(NotFound(names[i])));
          return Failed(NotFound(names[i]));
        }
        assert names[..i + 1] == names[..i] + [names[i]];
        i := i + 1;
      }
      assert names[..i] == names;
      return Done;
    }

    // ---------- Create ----------

    method ParseBatch(data: seq<Entry>) returns (o: Outcome, svcs: seq<Handle>)
      modifies this
      ensures o == Done ==>
                FitUpTo(parser, old(Now()), data, |data|) && Now() == old(Now()).(parses := old(parses) + |data|)
      ensures o == Done ==> Numbered(svcs, |data|, old(parses))
      ensures o != Done ==> exists k :: RefusedAt(parser, old(Now()), data, k, o, Now())
    {
      hide Clean;
      ghost var s := Now();
      svcs := [];
      var i := 0;
      while i < |data|
        invariant 0 <= i <= |data| && FitUpTo(parser, s, data, i) && Now() == s.(parses := s.parses + i)
        invariant Numbered(svcs, i, s.parses)
      {
        var name := Clean(data[i].name);
        if name == "" {
          assert RefusedAt(parser, s, data, i, Failed(NameRequired), Now());
          return Failed(NameRequired), [];
        }
        var taken := registry.IsRegistered(name);
        if taken {
          assert RefusedAt(parser, s, data, i, Failed(AlreadyExists(name)), Now());
          return Failed(AlreadyExists(name)), [];
        }
        var svc := Parse(Named(data[i]));
        if svc.None? {
          assert RefusedAt(parser, s, data, i, Failed(ParseFailed(name)), Now());
          return Failed(ParseFailed(name)), [];
        }
        svcs := svcs + [svc.value];
        i := i + 1;
      }
      return Done, svcs;
    }
  
    // Takes back and closes what a refused batch had registered.
    method TakeBack(names: seq<string>, ghost m: map<string, Handle>, ghost base: nat)
      requires Distinct(names) && "" !in names && SetOf(names) !! m.Keys && registry.m == Added(m, names, base)
      modifies registry
      ensures Now() == old(Now()).(registry := m, closed := old(registry.closed) + Range(base, base + |names|))
    {
      hide Added, Distinct, Range;
      var i := 0;
      ghost var all := registry.m;
      NoRange(base);
      while i < |names|
        invariant 0 <= i <= |names| && all == Added(m, names, base)
        invariant registry.m == all - SetOf(names[..i])
        invariant registry.closed == old(registry.closed) + Range(base, base + i)
      {
        RegisteredAs(m, names, base, i);
        RangeStep(base, i);
        NextName(names, i);
        var svc := registry.Get(names[i]);
        if svc.Some? {
          registry.Unregister(names[i]);
          registry.Close(svc.value);
        }
        i := i + 1;
      }
      assert names[..i] == names;
      TakenBack(m, names, base);
    }

    // Registers a whole batch, or nothing when a name is repeated; k is then the place of the repetition.
    method RegisterAll(names: seq<string>, svcs: seq<Handle>, ghost base: nat) returns (ok: bool, k: nat)
      requires Numbered(svcs, |names|, base) && "" !in names && SetOf(names) !! registry.m.Keys
      modifies registry
      ensures ok ==> Distinct(names) && Now() == old(Now()).(registry := Added(old(registry.m), names, base))
      ensures !ok ==> k < |names| && Distinct(names[..k]) && names[k] in names[..k]
                      && Now() == old(Now()).(closed := old(registry.closed) + Range(base, base + k))
    {
      ghost var m := registry.m;
      k := 0;
      while k < |names|
        invariant 0 <= k <= |names| && Distinct(names[..k]) && m == old(registry.m)
        invariant Now() == old(Now()).(registry := Added(m, names[..k], base))
      {
        AddedFacts(m, names[..k], base);
        assert names[k] in names;
        ok := registry.Register(names[k], svcs[k]);
        if !ok {
          TakeBack(names[..k], m, base);
          return;
        }
        assert names[..k + 1][..k] == names[..k];
        k := k + 1;
      }
      assert names[..k] == names;
      ok := true;
    }

    method ServeAll(names: seq<string>, ghost m: map<string, Handle>, ghost base: nat)
      requires Distinct(names) && "" !in names && registry.m == Added(m, names, base)
      modifies this
      ensures Now() == old(Now()).(served := old(served) + Range(base, base + |names|))
    {
      var i := 0;
      while i < |names|
        invariant 0 <= i <= |names|
        invariant Now() == old(Now()).(served := old(served) + Range(base, base + i))
      {
        RegisteredAs(m, names, base, i);
        RangeStep(base, i);
        var svc := registry.Get(names[i]);
        if svc.Some? {
          Serve(svc.value);
        }
        i := i + 1;
      }
    }

    method Create(data: seq<Entry>) returns (o: Outcome)
      modifies this, registry, config
      ensures Created(parser, old(Now()), data, o, Now())
    {
      hide Clean, Added, Fit, RefusedAt, Named;
      if data == [] {
        return Failed(EmptyBatch);
      }
      ghost var s := Now();
      var svcs: seq<Handle>;
      o, svcs := ParseBatch(data);
      if o != Done {
        return;
      }
      var names := NamesOf(data);
      FitNames(parser, s, data);
      var ok, k := RegisterAll(names, svcs, s.parses);
      if !ok {
        o := Failed(AlreadyExists(names[k]));
        assert RepeatedAt(parser, s, data, k, o, Now());
        return;
      }
      ServeAll(names, s.registry, s.parses);
      config.Append(NamedAll(data));
      assert Accepted(parser, s, data, o, Now());
    }

    // ---------- Update ----------

    // Closes a service, takes its name out and puts a newly parsed service in its place. The name is free by then,
    // so registering cannot be refused.
    method Replace(svc: Handle, name: string, e: Entry) returns (ok: bool)
      requires name != "" && name in registry.m && (svc == registry.m[name] || svc in registry.closed)
      modifies this, registry
      ensures ok == parser(e, old(parses))
      ensures Now() == if ok then Swap(old(Now()), name) else DropParsed(old(Now()), name)
    {
      ghost var s := Now();
      registry.Close(svc);
      registry.Unregister(name);
      assert registry.closed == s.closed + {s.registry[name]};
      var next := Parse(e);
      if next.None? {
        return false;
      }
      ok := registry.Register(name, next.value);
      assert registry.m == s.registry[name := s.parses];
      Serve(next.value);
    }

    // Replaces the services of a batch in order, up to the first configuration that does not parse.
    method ReplaceAll(names: seq<string>, entries: seq<Entry>) returns (n: nat)
      requires |entries| == |names| && AllKnown(Now(), names)
      modifies this, registry
      ensures n <= |names| && ParsedUpTo(parser, old(Now()), entries, n)
      ensures n == |names| ==> Now() == Swapped(old(Now()), names)
      ensures n < |names| ==> !parser(entries[n], old(parses) + n)
                              && Now() == DropParsed(Swapped(old(Now()), names[..n]), names[n])
    {
      hide Swap, DropParsed, Swapped;
      ghost var s := Now();
      n := 0;
      SwappedNone(s);
      while n < |names|
        invariant 0 <= n <= |names| && ParsedUpTo(parser, s, entries, n) && Now() == Swapped(s, names[..n])
      {
        assert names[n] in names && Known(s, names[n]);
        SwappedStep(s, names, n);
        var svc := registry.Get(names[n]);
        var ok := Replace(svc.value, names[n], entries[n]);
        if !ok {
          return;
        }
        n := n + 1;
      }
      assert names[..n] == names;
    }

    method Update(data: seq<Entry>) returns (o: Outcome)
      modifies this, registry, config
      ensures Updated(parser, old(Now()), data, o, Now())
    {
      hide Clean, Swapped, DropParsed, Renewed, Known, Named;
      if data == [] {
        return Failed(EmptyBatch);
      }
      ghost var s := Now();
      var names := NamesOf(data);
      o := CheckNames(names);
      if o != Done {
        return;
      }
      var n := ReplaceAll(names, NamedAll(data));
      if n < |data| {
        o := Failed(ParseFailed(names[n]));
        assert UpdateStops(parser, s, data, n, o, Now());
        return;
      }
      config.RenewAll(data);
      assert UpdateDone(parser, s, data, o, Now());
    }

    // ---------- Delete ----------

    method RemoveAll(names: seq<string>, svcs: seq<Handle>)
      requires |svcs| == |names|
      requires forall i :: 0 <= i < |names| ==> names[i] in registry.m && svcs[i] == registry.m[names[i]]
      modifies registry
      ensures Now() == old(Now()).(registry := old(registry.m) - SetOf(names),
                                   closed := old(registry.closed) + HandlesOf(old(registry.m), names))
    {
      hide HandlesOf;
      var m := registry.m;
      var i := 0;
      assert HandlesOf(m, []) == {} by { NoHandles(m); }
      while i < |names|
        invariant 0 <= i <= |names| && registry.m == m - SetOf(names[..i])
        invariant registry.closed == old(registry.closed) + HandlesOf(m, names[..i])
      {
        HandlesStep(m, names, i);
        registry.Unregister(names[i]);
        registry.Close(svcs[i]);
        i := i + 1;
      }
      assert names[..i] == names;
    }

    method Delete(raw: seq<string>) returns (o: Outcome)
      modifies registry, config
      ensures Deleted(old(Now()), raw, o, Now())
    {
      hide Clean, HandlesOf, Without, Known;
      if raw == [] {
        return Failed(EmptyBatch);
      }
      var names := Cleaned(raw);
      o := CheckNames(names);
      if o != Done {
        return;
      }
      var svcs := Services(names);
      RemoveAll(names, svcs);
      config.Remove(names);
    }

    // The services of known names, as they are when a batch is checked.
    method Services(names: seq<string>) returns (svcs: seq<Handle>)
      requires AllKnown(Now(), names)
      ensures |svcs| == |names| && forall i :: 0 <= i < |names| ==> names[i] in registry.m && svcs[i] == registry.m[names[i]]
    {
      svcs := [];
      while |svcs| < |names|
        invariant |svcs| <= |names|
        invariant forall i :: 0 <= i < |svcs| ==> names[i] in registry.m && svcs[i] == registry.m[names[i]]
      {
        assert Known(Now(), names[|svcs|]);
        var svc := registry.Get(names[|svcs|]);
        svcs := svcs + [svc.value];
      }
    }

    // ---------- Pause ----------

    // Takes back a pause. The names are still registered, so every service made here is refused and closed again.
    method TakeBackPause(names: seq<string>, entries: seq<Entry>)
      requires |entries| == |names| && AllKnown(Now(), names)
      modifies this, registry
      ensures Now() == old(Now()).(closed := old(registry.closed) + Remade(parser, entries, old(parses)),
                                   parses := old(parses) + |names|)
    {
      ghost var s := Now();
      var i := 0;
      while i < |names|
        invariant 0 <= i <= |names|
        invariant Now() == s.(closed := s.closed + Remade(parser, entries[..i], s.parses), parses := s.parses + i)
      {
        assert Known(s, names[i]);
        assert entries[..i + 1][..i] == entries[..i];
        var svc := Parse(entries[i]);
        if svc.Some? {
          var ok := registry.Register(names[i], svc.value);
          if ok {
            assert false;
          } else {
            registry.Close(svc.value);
          }
        }
        i := i + 1;
      }
      assert entries[..i] == entries;
    }

    // The last entry of each name.
    method Table() returns (r: map<string, Entry>)
      ensures forall n :: if n in r then LastOf(config.services, n) == Some(r[n]) else LastOf(config.services, n) == None
    {
      r := map[];
      var i := 0;
      while i < |config.services|
        invariant 0 <= i <= |config.services|
        invariant forall n :: if n in r then LastOf(config.services[..i], n) == Some(r[n])
                              else LastOf(config.services[..i], n) == None
      {
        assert config.services[..i + 1][..i] == config.services[..i];
        r := r[config.services[i].name := config.services[i]];
        i := i + 1;
      }
      assert config.services[..i] == config.services;
    }

    // Closes the services of a batch up to the first without a configuration.
    method CloseAll(names: seq<string>, svcs: seq<Handle>, table: map<string, Entry>)
      returns (k: nat, entries: seq<Entry>)
      requires |svcs| == |names|
      requires forall i :: 0 <= i < |names| ==> names[i] in registry.m && svcs[i] == registry.m[names[i]]
      requires forall n :: if n in table then LastOf(config.services, n) == Some(table[n])
                           else LastOf(config.services, n) == None
      modifies registry
      ensures k <= |names| && AllListed(config.services, names[..k]) && entries == LastsOf(config.services, names[..k])
      ensures k < |names| ==> !Listed(config.services, names[k])
      ensures Now() == old(Now()).(closed := old(registry.closed) + HandlesOf(registry.m, names[..k]))
    {
      hide HandlesOf, LastOf;
      k, entries := 0, [];
      assert HandlesOf(registry.m, []) == {} by { NoHandles(registry.m); }
      while k < |names|
        invariant 0 <= k <= |names| && registry.m == old(registry.m)
        invariant AllListed(config.services, names[..k]) && entries == LastsOf(config.services, names[..k])
        invariant registry.closed == old(registry.closed) + HandlesOf(registry.m, names[..k])
      {
        assert names[..k + 1] == names[..k] + [names[k]];
        if names[k] !in table {
          return;
        }
        HandlesStep(registry.m, names, k);
        registry.Close(svcs[k]);
        entries := entries + [table[names[k]]];
        k := k + 1;
      }
    }

    method Pause(raw: seq<string>) returns (o: Outcome)
      modifies this, registry, config
      ensures Paused(parser, old(Now()), raw, o, Now())
    {
      hide Clean, HandlesOf, Tagged, Known, LastOf, Remade;
      if raw == [] {
        return Failed(EmptyBatch);
      }
      ghost var s := Now();
      var names := Cleaned(raw);
      o := CheckNames(names);
      if o != Done {
        return;
      }
      var svcs := Services(names);
      var table := Table();
      var k, entries := CloseAll(names, svcs, table);
      if k < |names| {
        KnownPrefix(s, Now(), names, k);
        TakeBackPause(names[..k], entries);
        o := Failed(NoConfig(names[k]));
        assert PauseStops(parser, s, names, k, o, Now());
        return;
      }
      assert names[..k] == names;
      config.SetTags(names, true);
      assert PauseDone(s, names, o, Now());
    }

    // ---------- Resume ----------

    // The names of a batch that are flagged paused, with their services and entries as they are now.
    method Select(names: seq<string>) returns (o: Outcome, sel: seq<string>, svcs: seq<Handle>, entries: seq<Entry>)
      ensures o == Done ==> AllResumable(Now(), names) && sel == Flags(config.services, names)
                            && Selected(Now(), sel, svcs, entries)
      ensures o != Done ==> exists k :: UnresumableAt(Now(), names, k, o)
    {
      hide Flagged, Clean, First, Selected, Flags;
      sel, svcs, entries := [], [], [];
      NoneSelected(Now());
      var i := 0;
      while i < |names|
        invariant 0 <= i <= |names| && AllResumable(Now(), names[..i]) && sel == Flags(config.services, names[..i])
        invariant Selected(Now(), sel, svcs, entries)
      {
        if names[i] == "" {
          o := Failed(NameRequired);
          assert UnresumableAt(Now(), names, i, o);
          return;
        }
        var svc := registry.Get(names[i]);
        if svc.None? {
          o := Failed(NotFound(names[i]));
          assert UnresumableAt(Now(), names, i, o);
          return;
        }
        var e := config.Find(names[i]);
        if e.None? {
          o := Failed(NoConfig(names[i]));
          assert UnresumableAt(Now(), names, i, o);
          return;
        }
        assert names[..i + 1] == names[..i] + [names[i]];
        FlagsNext(config.services, names, i);
        if Flagged(e.value) {
          SelectedNext(Now(), sel, svcs, entries, names[i]);
          sel, svcs, entries := sel + [names[i]], svcs + [svc.value], entries + [e.value];
        }
        i := i + 1;
      }
      assert names[..i] == names;
      o := Done;
    }

    // Replaces the services of a batch in order, as they were when the batch was checked.
    method RestartAll(sel: seq<string>, svcs: seq<Handle>, entries: seq<Entry>) returns (n: nat)
      requires |sel| == |svcs| == |entries| && Selected(Now(), sel, svcs, entries)
      modifies this, registry
      ensures n <= |sel| && ParsedUpTo(parser, old(Now()), entries, n)
      ensures n == |sel| ==> Now() == Swapped(old(Now()), sel)
      ensures n < |sel| ==> !parser(entries[n], old(parses) + n)
                            && Now() == DropParsed(Swapped(old(Now()), sel[..n]), sel[n])
    {
      hide Swap, DropParsed, Swapped, Selected, Known, Listed, First, Clean;
      ghost var s := Now();
      n := 0;
      SwappedNone(s);
      while n < |sel|
        invariant 0 <= n <= |sel| && ParsedUpTo(parser, s, entries, n) && Now() == Swapped(s, sel[..n])
      {
        SelectedOld(s, sel, svcs, entries, n);
        SwappedStep(s, sel, n);
        var ok := Replace(svcs[n], sel[n], entries[n]);
        if !ok {
          return;
        }
        n := n + 1;
      }
      assert sel[..n] == sel;
    }

    // Takes back a resume: what runs again is closed and flagged.
    method TakeBackResume(names: seq<string>)
      requires "" !in names
      modifies registry, config
      ensures Now() == Withdrawn(old(Now()), names)
    {
      hide HandlesOf, Tag, TagFirst, Tagged;
      ghost var s := Now();
      var i := 0;
      NoHandles(s.registry);
      NoTags(s.config, true);
      while i < |names|
        invariant 0 <= i <= |names| && Now() == Withdrawn(s, names[..i])
      {
        assert names[i] in names;
        TaggedStep(s.config, names, i, true);
        var svc := registry.Get(names[i]);
        if svc.Some? {
          HandlesStep(s.registry, names, i);
          registry.Close(svc.value);
        } else {
          NoHandlesStep(s.registry, names, i);
        }
        config.SetTag(names[i], true);
        i := i + 1;
      }
      assert names[..i] == names;
    }

    method Resume(raw: seq<string>) returns (o: Outcome)
      modifies this, registry, config
      ensures Resumed(parser, old(Now()), raw, o, Now())
    {
      hide Clean, HandlesOf, Tagged, Known, Swapped, DropParsed, Withdrawn, Selected, First, Listed, Flags, EntriesOf,
           ParsedUpTo, Resumable;
      if raw == [] {
        return Failed(EmptyBatch);
      }
      ghost var s := Now();
      var names := Cleaned(raw);
      var sel, svcs, entries;
      o, sel, svcs, entries := Select(names);
      if o != Done {
        return;
      }
      SelectedSizes(s, sel, svcs, entries);
      KnownPrefix(s, s, sel, |sel|);
      var n := RestartAll(sel, svcs, entries);
      assert sel[..|sel|] == sel && forall x :: x in sel[..n] ==> x in sel;
      if n < |sel| {
        TakeBackResume(sel[..n]);
        o := Failed(ParseFailed(sel[n]));
        assert ResumeStops(parser, s, sel, n, o, Now());
        return;
      }
      config.SetTags(sel, false);
      assert ResumeDone(parser, s, sel, o, Now());
    }

    // ---------- All commands ----------

    method Carry(c: Command) returns (o: Outcome)
      modifies this, registry, config
      ensures Step(parser, old(Now()), c, o, Now())
    {
      match c {
        case Create(data) => o := Create(data);
        case Update(data) => o := Update(data);
        case Delete(names) => o := Delete(names);
        case Pause(names) => o := Pause(names);
        case Resume(names) => o := Resume(names);
      }
    }
  }
}
