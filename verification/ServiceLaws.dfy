// Laws of single service commands and of two in a row, and the tidy runs in which no service is lost.

module ServiceLaws {
  import opened Common
  import opened Registries
  import opened Text
  import opened Services
  import opened ServiceRuns

  // ---------- Create is all or nothing ----------

  // A batch is accepted exactly when every name is new, non-empty and parses, and no name is repeated.
  lemma CreateAllOrNothing(parse: Parser, s: State, data: seq<Entry>, o: Outcome, t: State)
    requires Created(parse, s, data, o, t)
    ensures o == Done <==> data != [] && FitUpTo(parse, s, data, |data|) && Distinct(NamesOf(data))
    ensures o.Failed? ==>
              t.registry == s.registry && t.config == s.config && t.served == s.served && s.closed <= t.closed
              && forall h :: h in t.closed && h !in s.closed ==> s.parses <= h < t.parses
    ensures o == Done ==>
              && t.registry.Keys == s.registry.Keys + SetOf(NamesOf(data))
              && (forall a :: a in s.registry ==> t.registry[a] == s.registry[a])
              && t.config == s.config + NamedAll(data) && t.closed == s.closed
  {
    hide Clean;
    if data != [] {
      if k: nat :| RefusedAt(parse, s, data, k, o, t) {
        assert !Fit(parse, s, data[k], k);
      } else if k: nat :| RepeatedAt(parse, s, data, k, o, t) {
        var names := NamesOf(data);
        var j :| 0 <= j < k && names[..k][j] == names[k];
        assert names[j] == names[k];
      } else {
        FitNames(parse, s, data);
        AddedFacts(s.registry, NamesOf(data), s.parses);
      }
    }
  }

  // ---------- Update ----------

  // For a name of the batch, once: the stored configuration becomes the requested one exactly when the request wrote
  // the name without surrounding white space, or asked for what was stored already.
  lemma UpdateStored(parse: Parser, s: State, data: seq<Entry>, t: State, j: nat)
    requires Inv(s) && Updated(parse, s, data, Done, t) && j < |data| && Distinct(NamesOf(data))
    requires AllKnown(s, NamesOf(data))
    ensures Lead(t.config, Clean(data[j].name)).Some? && Lead(s.config, Clean(data[j].name)).Some?
    ensures Lead(t.config, Clean(data[j].name)).value == Named(data[j])
            <==> data[j].name == Clean(data[j].name) || Lead(s.config, Clean(data[j].name)).value == Named(data[j])
  {
    hide Clean, Sound;
    var a := Clean(data[j].name);
    assert Known(s, NamesOf(data)[j]) && Healthy(s, a);
    assert UpdateDone(parse, s, data, Done, t);
    LeadOfRenewed(s.config, data, a);
    var e := Lead(s.config, a).value;
    CleanName(data[j].name);
    LatestOnly(data, e, j);
  }

  lemma {:induction false} LatestOnly(data: seq<Entry>, e: Entry, j: nat)
    requires j < |data| && Distinct(NamesOf(data)) && e.name == Clean(data[j].name) && Clean(e.name) == e.name
    ensures Latest(data, e) == if data[j].name == e.name then data[j] else e
  {
    hide Clean;
    var r := Latest(data, e);
    if r in data {
      var i :| 0 <= i < |data| && data[i] == r;
      assert NamesOf(data)[i] == NamesOf(data)[j];
      assert i == j;
    } else {
      assert data[j] in data;
    }
  }

  // A request that pads a name replaces the service and keeps the old configuration.
  lemma PaddedUpdateForgets(parse: Parser, s: State, t: State)
    requires parse == ((e, n) => true)
    requires s == State(map["a" := 0], [Entry("a", ":1", "", None)], {}, {0}, 1)
    requires t == State(map["a" := 1], [Entry("a", ":1", "", None)], {0}, {0, 1}, 2)
    ensures Updated(parse, s, [Entry("a ", ":2", "", None)], Done, t)
  {
    var data := [Entry("a ", ":2", "", None)];
    assert TrimLeft("a ", GoSpace) == "a ";
    assert "a "[..1] == "a" && TrimRight("a", GoSpace) == "a" && TrimRight("a ", GoSpace) == "a";
    var names := NamesOf(data);
    assert names == ["a"] && names[..0] == [] && data[..0] == [];
    assert Known(s, names[0]);
    assert Swapped(s, names) == Swap(Swapped(s, []), "a");
    assert First(s.config, "a ") == 1;
    assert Renewed(s.config, data) == RenewFirst(Renewed(s.config, []), data[0]);
    assert UpdateDone(parse, s, data, Done, t);
  }

  // An update or a resume that fails halfway takes exactly the failing name out of the registry.
  ghost predicate Loses(s: State, names: seq<string>, n: nat, t: State)
    requires n < |names|
  {
    && t.registry.Keys == s.registry.Keys - {names[n]} && t.config == s.config
    && (forall a :: a in names[..n] && a != names[n] ==> Open(t, a) && t.registry[a] >= s.parses)
    && (forall a :: a in s.registry && a !in names[..n] && a != names[n] ==>
          t.registry[a] == s.registry[a] && (Open(t, a) <==> Open(s, a)))
  }

  lemma DropLoses(s: State, names: seq<string>, n: nat, q: State)
    requires n < |names| && Sound(q) && names[n] in s.registry && AllKnown(s, names[..n])
    requires Replaces(s, names[..n], q) && q.config == s.config
    ensures Loses(s, names, n, DropParsed(q, names[n]))
  {
    hide Sound, Open;
    DropSound(q, names[n]);
  }

  lemma StoppedLoses(s: State, names: seq<string>, n: nat)
    requires Sound(s) && n < |names| && AllKnown(s, names) && AllClean(names)
    ensures Loses(s, names, n, DropParsed(Swapped(s, names[..n]), names[n]))
  {
    hide Clean, Sound, Open, Loses, Replaces;
    PrefixKnown(s, names, n);
    SwappedReplaces(s, names[..n]);
    assert Known(s, names[n]);
    DropLoses(s, names, n, Swapped(s, names[..n]));
  }

  // ---------- Taking back ----------

  // Taking back a pause restores nothing: the services closed so far stay closed and unflagged, whatever parses.
  lemma PauseRollbackRestoresNothing(parse: Parser, s: State, names: seq<string>, k: nat, o: Outcome, t: State)
    requires AllKnown(s, names) && PauseStops(parse, s, names, k, o, t)
    ensures t.registry == s.registry && t.config == s.config
    ensures forall i :: 0 <= i < k ==> !Open(t, names[i])
  {
    forall i | 0 <= i < k ensures !Open(t, names[i]) {
      assert names[..k][i] == names[i] && Known(s, names[i]);
    }
  }

  // Taking back a resume leaves the flags as they were, the failing service out of the registry
  // and those before it registered but closed.
  lemma ResumeRollback(parse: Parser, s: State, sel: seq<string>, n: nat, o: Outcome, t: State)
    requires Inv(s) && AllKnown(s, sel) && AllClean(sel) && AllListed(s.config, sel)
    requires (forall x :: x in sel ==> PausedIn(s.config, x)) && ResumeStops(parse, s, sel, n, o, t)
    ensures t.config == s.config && t.registry.Keys == s.registry.Keys - {sel[n]}
    ensures forall i :: 0 <= i < n && sel[i] != sel[n] ==> sel[i] in t.registry && !Open(t, sel[i])
  {
    hide Inv, PausedIn, Clean;
    var q := DropParsed(Swapped(s, sel[..n]), sel[n]);
    ResumeStopsKeeps(parse, s, sel, n, o, t);
    assert Sound(s) by { InvSound(s); }
    StoppedLoses(s, sel, n);
    forall i | 0 <= i < n && sel[i] != sel[n] ensures sel[i] in t.registry && !Open(t, sel[i]) {
      assert sel[..n][i] == sel[i];
    }
  }

  lemma InvSound(s: State)
    requires Inv(s)
    ensures Sound(s)
  {
  }

  // ---------- A lost service stays lost until it is created again ----------

  ghost predicate Lost(s: State, a: string) {
    a != "" && Clean(a) == a && a !in s.registry && Listed(s.config, a)
  }

  lemma UnknownName(s: State, names: seq<string>, a: string)
    requires AllKnown(s, names) && a !in s.registry
    ensures a !in names
  {
    assert a in names ==> Known(s, a);
  }

  lemma SwappedListing(s: State, names: seq<string>)
    requires AllKnown(s, names)
    ensures Swapped(s, names).registry.Keys == s.registry.Keys && Swapped(s, names).config == s.config
  {
    forall n | n in names ensures n in s.registry {
      assert Known(s, n);
    }
  }

  lemma UpdateLost(parse: Parser, s: State, data: seq<Entry>, o: Outcome, t: State, a: string)
    requires Lost(s, a) && Updated(parse, s, data, o, t)
    ensures Lost(t, a)
  {
    hide Clean, Lead;
    if t != s {
      UnknownName(s, NamesOf(data), a);
      SwappedListing(s, NamesOf(data));
      LeadOfRenewed(s.config, data, a);
      if n: nat :| UpdateStops(parse, s, data, n, o, t) {
        SwappedListing(s, NamesOf(data)[..n]);
      } else {
        assert Lead(t.config, a).Some?;
      }
    }
  }

  lemma SelectedLost(parse: Parser, s: State, sel: seq<string>, o: Outcome, t: State, a: string)
    requires Lost(s, a) && AllKnown(s, sel) && AllListed(s.config, sel)
    requires (exists n :: ResumeStops(parse, s, sel, n, o, t)) || ResumeDone(parse, s, sel, o, t)
    ensures Lost(t, a)
  {
    hide Clean, Lead;
    if n: nat :| ResumeStops(parse, s, sel, n, o, t) {
      SwappedListing(s, sel[..n]);
      LeadOfTagged(s.config, sel[..n], true, a);
      assert Lead(t.config, a).Some?;
    } else {
      SwappedListing(s, sel);
      LeadOfTagged(s.config, sel, false, a);
      assert Lead(t.config, a).Some?;
    }
  }

  lemma ResumeLost(parse: Parser, s: State, raw: seq<string>, o: Outcome, t: State, a: string)
    requires Lost(s, a) && Resumed(parse, s, raw, o, t)
    ensures Lost(t, a)
  {
    hide Lost, ResumeStops, ResumeDone, UnresumableAt;
    if t != s {
      var names := Cleaned(raw);
      CleanedClean(raw);
      SelectedKnown(s, names, Flags(s.config, names));
      SelectedLost(parse, s, Flags(s.config, names), o, t, a);
    }
  }

  lemma DeleteLost(s: State, raw: seq<string>, o: Outcome, t: State, a: string)
    requires Lost(s, a) && Deleted(s, raw, o, t)
    ensures Lost(t, a)
  {
    hide Clean, Lead;
    if t != s {
      UnknownName(s, Cleaned(raw), a);
      LeadOfWithout(s.config, Cleaned(raw), a);
      assert Lead(t.config, a).Some?;
    }
  }

  lemma PauseLost(parse: Parser, s: State, raw: seq<string>, o: Outcome, t: State, a: string)
    requires Lost(s, a) && Paused(parse, s, raw, o, t)
    ensures Lost(t, a)
  {
    hide Clean, Lead, PauseStops;
    if t != s {
      LeadOfTagged(s.config, Cleaned(raw), true, a);
      if k: nat :| PauseStops(parse, s, Cleaned(raw), k, o, t) {
        PauseRollbackRestoresNothing(parse, s, Cleaned(raw), k, o, t);
      } else {
        assert Lead(t.config, a).Some?;
      }
    }
  }

  // A service that a failed parse took out of the registry keeps its entry and stays out whatever is updated, deleted,
  // paused or resumed.
  lemma LostStays(parse: Parser, s: State, c: Command, o: Outcome, t: State, a: string)
    requires Lost(s, a) && Step(parse, s, c, o, t) && !c.Create?
    ensures Lost(t, a)
  {
    hide Lost, Updated, Deleted, Paused, Resumed;
    match c {
      case Update(data) => UpdateLost(parse, s, data, o, t, a);
      case Delete(names) => DeleteLost(s, names, o, t, a);
      case Pause(names) => PauseLost(parse, s, names, o, t, a);
      case Resume(names) => ResumeLost(parse, s, names, o, t, a);
    }
  }

  // It comes back exactly with a create that is accepted and names it.
  lemma LostUntilCreated(parse: Parser, s: State, c: Command, o: Outcome, t: State, a: string)
    requires Lost(s, a) && Step(parse, s, c, o, t)
    ensures Lost(t, a) <==>
      !(c.Create? && a in NamesOf(c.data) && FitUpTo(parse, s, c.data, |c.data|) && Distinct(NamesOf(c.data)))
  {
    hide Clean, Updated, Deleted, Paused, Resumed, Lead;
    if c.Create? {
      CreateAllOrNothing(parse, s, c.data, o, t);
      LeadOfPair(s.config, NamedAll(c.data), a);
      assert Lead(s.config, a).Some?;
    } else {
      LostStays(parse, s, c, o, t, a);
    }
  }

  // ---------- Pause, then resume ----------

  // Pausing and resuming gives back the entry exactly when it carried no flag before and no empty table.
  predicate Restorable(e: Entry) {
    e.metadata.None? || (PAUSED !in e.metadata.value && e.metadata.value != map[])
  }

  lemma TagAndBack(e: Entry)
    ensures Tag(Tag(e, true), false) == e <==> Restorable(e)
    ensures e.metadata.Some? && PAUSED !in e.metadata.value ==>
              Tag(Tag(e, true), false) == if e.metadata.value == map[] then e.(metadata := None) else e
  {
    if e.metadata.Some? {
      var m := e.metadata.value;
      assert m[PAUSED := Flag(true)] - {PAUSED} == m - {PAUSED};
      if PAUSED !in m {
        assert m - {PAUSED} == m;
      } else {
        assert PAUSED !in m - {PAUSED};
      }
    } else {
      var m: map<string, Value> := map[];
      assert m[PAUSED := Flag(true)] - {PAUSED} == m;
    }
  }

  lemma RoundAt(cfg: seq<Entry>, names: seq<string>, i: nat)
    requires i < |cfg|
    ensures Tagged(Tagged(cfg, names, true), names, false)[i]
            == if cfg[i].name in names && First(cfg, cfg[i].name) == i then Tag(Tag(cfg[i], true), false) else cfg[i]
  {
    var m := Tagged(cfg, names, true);
    forall j | 0 <= j < |cfg| ensures m[j].name == cfg[j].name {
      TaggedAt(cfg, names, true, j);
    }
    SameLabels(cfg, m, cfg[i].name);
    TaggedAt(cfg, names, true, i);
    TaggedAt(m, names, false, i);
  }

  lemma {:induction false} RoundRestores(cfg: seq<Entry>, names: seq<string>)
    requires AllListed(cfg, names)
    ensures Tagged(Tagged(cfg, names, true), names, false) == cfg
            <==> forall n :: n in names ==> Lead(cfg, n).Some? && Restorable(Lead(cfg, n).value)
  {
    hide Tag, Restorable;
    var t := Tagged(Tagged(cfg, names, true), names, false);
    if forall n :: n in names ==> Lead(cfg, n).Some? && Restorable(Lead(cfg, n).value) {
      forall i | 0 <= i < |cfg| ensures t[i] == cfg[i] {
        RoundAt(cfg, names, i);
        TagAndBack(cfg[i]);
      }
    } else {
      var n :| n in names && !(Lead(cfg, n).Some? && Restorable(Lead(cfg, n).value));
      assert Listed(cfg, n);
      RoundAt(cfg, names, First(cfg, n));
      TagAndBack(cfg[First(cfg, n)]);
    }
  }

  lemma {:induction false} AllFlagged(cfg: seq<Entry>, names: seq<string>, sub: seq<string>)
    requires AllListed(cfg, names) && forall n :: n in sub ==> n in names
    ensures Flags(Tagged(cfg, names, true), sub) == sub
  {
    if sub != [] {
      var k := |sub| - 1;
      AllFlagged(cfg, names, sub[..k]);
      assert sub == sub[..k] + [sub[k]];
      assert Listed(cfg, sub[k]);
      LeadOfTagged(cfg, names, true, sub[k]);
      TagFlags(Lead(cfg, sub[k]).value);
    }
  }

  // Pausing a batch and resuming it restores the configuration if and only if every first entry was restorable, and
  // leaves every service of the batch anew and open and every other as it was.
  lemma PauseThenResume(parse: Parser, s: State, raw: seq<string>, m: State, t: State)
    requires Inv(s) && Paused(parse, s, raw, Done, m) && Resumed(parse, m, raw, Done, t)
    ensures t.config == s.config
            <==> forall n :: n in Cleaned(raw) ==> Lead(s.config, n).Some? && Restorable(Lead(s.config, n).value)
    ensures Replaces(s, Cleaned(raw), t)
  {
    hide Clean, Tagged, Sound, Replaces, Restorable, Lead, Swapped;
    var names := Cleaned(raw);
    assert PauseDone(s, names, Done, m);
    RoundRestores(s.config, names);
    AllFlagged(s.config, names, names);
    assert Flags(m.config, names) == names;
    assert ResumeDone(parse, m, names, Done, t);
    PauseKeeps(parse, s, raw, Done, m);
    CleanedClean(raw);
    SwappedReplaces(m, names);
    PausedReplaces(s, names, m, t);
  }

  lemma PausedReplaces(s: State, names: seq<string>, m: State, t: State)
    requires Sound(s) && PauseDone(s, names, Done, m) && Replaces(m, names, t.(config := m.config))
    ensures Replaces(s, names, t)
  {
    hide Clean, Tagged;
    forall a | a in s.registry && a !in names ensures t.registry[a] == s.registry[a] && (Open(t, a) <==> Open(s, a)) {
      SameOpen(t.(config := m.config), t, a);
    }
    forall a | a in s.registry && a in names ensures Open(t, a) {
      SameOpen(t.(config := m.config), t, a);
    }
  }
}
