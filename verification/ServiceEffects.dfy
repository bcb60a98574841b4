// What each command does to each single service, and that no service that runs is ever lost track of.

module ServiceEffects {
  import opened Common
  import opened Registries
  import opened Text
  import opened Services
  import opened ServiceRuns
  import opened ServiceLaws

  // A new service of the name is registered, served and open, and the one it replaces is closed.
  ghost predicate Anew(s: State, t: State, a: string) {
    && a in t.registry && t.registry[a] >= s.parses && Open(t, a) && t.registry[a] in t.served
    && (a in s.registry ==> s.registry[a] in t.closed)
  }

  // The service of the name is the one it was, open or closed as it was, and its first entry is the same.
  ghost predicate Untouched(s: State, t: State, a: string) {
    && (a in t.registry <==> a in s.registry)
    && (a in s.registry ==> t.registry[a] == s.registry[a] && (Open(t, a) <==> Open(s, a)))
    && Lead(t.config, a) == Lead(s.config, a)
  }

  // ---------- Tags ----------

  // Tagging an entry sets or clears its flag and nothing else; no empty table is left.
  lemma {:induction false} TagChangesOnlyFlag(e: Entry, on: bool, key: string)
    ensures var r := Tag(e, on);
      && (Flagged(r) <==> on) && r.(metadata := e.metadata) == e
      && (key != "paused" ==>
            (r.metadata.Some? && key in r.metadata.value <==> e.metadata.Some? && key in e.metadata.value))
      && (key != "paused" && r.metadata.Some? && key in r.metadata.value ==>
            r.metadata.value[key] == e.metadata.value[key])
      && (!on && r.metadata.Some? ==> "paused" !in r.metadata.value && (e.metadata.None? || r.metadata.value != map[]))
  {
    if e.metadata.Some? {
      assert key != "paused" ==> (key in e.metadata.value <==> key in e.metadata.value - {PAUSED});
    }
  }

  // ---------- Each command ----------

  lemma {:induction false} CreateEffect(parse: Parser, s: State, data: seq<Entry>, t: State, a: string)
    requires Inv(s) && Created(parse, s, data, Done, t)
    ensures if a in NamesOf(data) then a !in s.registry && Anew(s, t, a) && Listed(t.config, a) else Untouched(s, t, a)
  {
    hide Clean, Healthy, Lead, Joined, Accepted, Sound, Open;
    InvSound(s);
    CreateAllOrNothing(parse, s, data, Done, t);
    CreatedJoins(parse, s, data, t);
    FitNames(parse, s, data);
    LeadOfPair(s.config, NamedAll(data), a);
    if a in NamesOf(data) {
      LeadOfNamed(data, a);
      assert Lead(NamedAll(data), a).Some?;
    }
    JoinedEffect(s, NamesOf(data), t, a);
    NotAmong(data, a);
  }

  lemma {:induction false} CreatedJoins(parse: Parser, s: State, data: seq<Entry>, t: State)
    requires Created(parse, s, data, Done, t)
    ensures t == Joined(s, NamesOf(data)).(config := s.config + NamedAll(data))
  {
    hide Joined, Clean, FitUpTo;
  }

  lemma {:induction false} JoinedEffect(s: State, names: seq<string>, t: State, a: string)
    requires Sound(s) && t == Joined(s, names).(config := t.config)
    ensures a in t.registry <==> a in s.registry || a in names
    ensures a in names ==> t.registry[a] >= s.parses && Open(t, a) && t.registry[a] in t.served
    ensures a !in names && a in s.registry ==> t.registry[a] == s.registry[a] && (Open(t, a) <==> Open(s, a))
  {
    hide Clean;
    AddedFacts(s.registry, names, s.parses);
    if a in names {
      JoinedOpen(s, names, a);
    }
  }

  lemma {:induction false} NotAmong(data: seq<Entry>, a: string)
    ensures Clean(a) == a && a !in NamesOf(data) ==> Lead(NamedAll(data), a) == None && Lead(data, a) == None
    ensures a !in NamesOf(data) ==> Lead(NamedAll(data), a) == None
  {
    hide Clean;
    var all := NamedAll(data);
    if r: Entry :| r in all && r.name == a {
      var i :| 0 <= i < |data| && all[i] == r;
      assert NamesOf(data)[i] == a;
    }
    if r: Entry :| r in data && r.name == a {
      var i :| 0 <= i < |data| && data[i] == r;
      assert Clean(a) == a ==> NamesOf(data)[i] == a;
    }
  }

  lemma {:induction false} UpdateEffect(parse: Parser, s: State, data: seq<Entry>, t: State, a: string)
    requires Inv(s) && Updated(parse, s, data, Done, t) && a in s.registry
    ensures if a in NamesOf(data) then Anew(s, t, a) else Untouched(s, t, a)
  {
    hide Clean, Healthy, Lead, Swapped, Renewed, Sound, Open;
    InvSound(s);
    var names := NamesOf(data);
    NamesClean(data);
    assert UpdateDone(parse, s, data, Done, t);
    SwapEffect(s, names, t, a);
    if a !in names {
      LeadOfRenewed(s.config, data, a);
      RegisteredClean(s, a);
      NotAmong(data, a);
      LatestOutside(s.config, data, a);
    }
  }

  lemma {:induction false} RegisteredClean(s: State, a: string)
    requires Sound(s) && a in s.registry
    ensures Clean(a) == a && s.registry[a] < s.parses
  {
    hide Clean;
  }

  lemma {:induction false} LatestOutside(cfg: seq<Entry>, data: seq<Entry>, a: string)
    requires Lead(data, a) == None
    ensures Lead(cfg, a).Some? ==> Latest(data, Lead(cfg, a).value) == Lead(cfg, a).value
  {
    assert First(data, a) == |data|;
    assert forall d :: d in data ==> d.name != a;
  }

  lemma {:induction false} SwapEffect(s: State, names: seq<string>, t: State, a: string)
    requires Sound(s) && AllKnown(s, names) && AllClean(names) && t == Swapped(s, names).(config := t.config)
    requires a in s.registry
    ensures if a in names then Anew(s, t, a)
            else a in t.registry && t.registry[a] == s.registry[a] && (Open(t, a) <==> Open(s, a))
  {
    hide Clean, Swapped;
    var q := Swapped(s, names);
    SwappedReplaces(s, names);
    SwappedOld(s, names, a);
    SameOpen(q, t, a);
  }

  lemma {:induction false} DeleteEffect(s: State, raw: seq<string>, t: State, a: string)
    requires Inv(s) && Deleted(s, raw, Done, t) && a in s.registry
    ensures if a in Cleaned(raw) then a !in t.registry && s.registry[a] in t.closed && !Listed(t.config, a)
            else Untouched(s, t, a)
  {
    hide Clean, Healthy;
    LeadOfWithout(s.config, Cleaned(raw), a);
    assert Lead(t.config, a) == if a in Cleaned(raw) then None else Lead(s.config, a);
  }

  // A paused service keeps its number and is closed, and its first entry is flagged.
  lemma {:induction false} PauseEffect(parse: Parser, s: State, raw: seq<string>, t: State, a: string)
    requires Inv(s) && Paused(parse, s, raw, Done, t) && a in s.registry
    ensures if a in Cleaned(raw) then
              && a in t.registry && t.registry[a] == s.registry[a] && !Open(t, a) && PausedIn(t.config, a)
              && Lead(s.config, a).Some? && Lead(t.config, a) == Some(Tag(Lead(s.config, a).value, true))
            else Untouched(s, t, a)
  {
    hide Clean, Tagged, Healthy, Tag, Flagged;
    var names := Cleaned(raw);
    assert PauseDone(s, names, Done, t);
    LeadOfTagged(s.config, names, true, a);
    if a in names {
      TagFlags(Lead(s.config, a).value);
      assert Lead(t.config, a).Some?;
    }
  }

  // A resume replaces exactly the services flagged paused, and takes their flags away.
  lemma {:induction false} ResumeEffect(parse: Parser, s: State, raw: seq<string>, t: State, a: string)
    requires Inv(s) && Resumed(parse, s, raw, Done, t) && a in s.registry
    ensures if a in Cleaned(raw) && PausedIn(s.config, a) then
              && Anew(s, t, a) && !PausedIn(t.config, a)
              && Lead(s.config, a).Some? && Lead(t.config, a) == Some(Tag(Lead(s.config, a).value, false))
            else Untouched(s, t, a)
  {
    hide Clean, Tagged, Healthy, Tag, Swapped, Sound, Open, Flagged, Listed;
    InvSound(s);
    var names := Cleaned(raw);
    var sel := Flags(s.config, names);
    CleanedClean(raw);
    SelectedKnown(s, names, sel);
    assert ResumeDone(parse, s, sel, Done, t);
    SwapEffect(s, sel, t, a);
    LeadOfTagged(s.config, sel, false, a);
    if a in sel {
      TagChangesOnlyFlag(Lead(s.config, a).value, false, "");
      Unflagged(t.config, a);
    }
  }

  lemma {:induction false} Unflagged(cfg: seq<Entry>, a: string)
    requires Lead(cfg, a).Some? && !Flagged(Lead(cfg, a).value)
    ensures !PausedIn(cfg, a)
  {
    hide Flagged;
  }

  // ---------- Refusals ----------

  function BatchOf(c: Command): seq<string> {
    match c
    case Create(data) => NamesOf(data)
    case Update(data) => NamesOf(data)
    case Delete(names) => Cleaned(names)
    case Pause(names) => Cleaned(names)
    case Resume(names) => Cleaned(names)
  }

  // What an error tells about the batch and the state before.
  ghost predicate Explains(parse: Parser, s: State, c: Command, e: Error) {
    match e
    case EmptyBatch => BatchOf(c) == []
    case NameRequired => "" in BatchOf(c)
    case AlreadyExists(n) => c.Create? && n in BatchOf(c) && (n in s.registry || !Distinct(BatchOf(c)))
    case NotFound(n) => !c.Create? && n in BatchOf(c) && n !in s.registry
    case NoConfig(n) => (c.Pause? || c.Resume?) && n in BatchOf(c) && n in s.registry && !Listed(s.config, n)
    case ParseFailed(n) => !c.Delete? && !c.Pause? && n in BatchOf(c) && exists x, k: nat :: k >= s.parses && !parse(x, k)
  }

  // Every error is true of what was asked. Under the invariant no error complains about a missing configuration.
  lemma {:induction false} ErrorsAreTrue(parse: Parser, s: State, c: Command, o: Outcome, t: State)
    requires Step(parse, s, c, o, t) && o.Failed?
    ensures Explains(parse, s, c, o.error)
    ensures Inv(s) ==> !o.error.NoConfig?
  {
    hide Clean, Created, Updated, Resumed, Paused, Deleted, Healthy, Sound, Explains;
    match c {
      case Create(data) => CreateErrors(parse, s, data, o, t);
      case Update(data) => UpdateErrors(parse, s, data, o, t);
      case Delete(names) => DeleteErrors(parse, s, names, o, t);
      case Pause(names) => PauseErrors(parse, s, names, o, t);
      case Resume(names) => ResumeErrors(parse, s, names, o, t);
    }
    if Inv(s) && o.error.NoConfig? {
      assert Explains(parse, s, c, o.error);
      MissingEntry(parse, s, c, o.error);
    }
  }

  lemma {:induction false} MissingEntry(parse: Parser, s: State, c: Command, e: Error)
    requires Inv(s) && e.NoConfig?
    ensures !Explains(parse, s, c, e)
  {
    hide Clean;
    if e.name in s.registry {
      assert Healthy(s, e.name);
    }
  }

  lemma {:induction false} CreateErrors(parse: Parser, s: State, data: seq<Entry>, o: Outcome, t: State)
    requires Created(parse, s, data, o, t) && o.Failed?
    ensures Explains(parse, s, Create(data), o.error)
  {
    hide Clean;
    var names := NamesOf(data);
    if data != [] {
      if k: nat :| RefusedAt(parse, s, data, k, o, t) {
        assert names[k] in names;
      } else {
        var k: nat :| RepeatedAt(parse, s, data, k, o, t);
        var j :| 0 <= j < k && names[..k][j] == names[k];
        assert names[j] == names[k] && names[k] in names;
      }
    }
  }

  lemma {:induction false} UnknownExplained(parse: Parser, s: State, c: Command, k: nat, o: Outcome)
    requires UnknownAt(s, BatchOf(c), k, o) && !c.Create?
    ensures o.Failed? && Explains(parse, s, c, o.error)
  {
    hide Clean;
    assert BatchOf(c)[k] in BatchOf(c);
  }

  lemma {:induction false} UpdateErrors(parse: Parser, s: State, data: seq<Entry>, o: Outcome, t: State)
    requires Updated(parse, s, data, o, t) && o.Failed?
    ensures Explains(parse, s, Update(data), o.error)
  {
    hide Clean, UnknownAt, Swapped, DropParsed, AllKnown;
    var names := NamesOf(data);
    if data != [] {
      if k: nat :| UnknownAt(s, names, k, o) {
        UnknownExplained(parse, s, Update(data), k, o);
      } else {
        var n: nat :| UpdateStops(parse, s, data, n, o, t);
        assert names[n] in names;
      }
    }
  }

  lemma {:induction false} DeleteErrors(parse: Parser, s: State, raw: seq<string>, o: Outcome, t: State)
    requires Deleted(s, raw, o, t) && o.Failed?
    ensures Explains(parse, s, Delete(raw), o.error)
  {
    hide Clean, UnknownAt, Without, HandlesOf, AllKnown;
    if raw != [] {
      var k: nat :| UnknownAt(s, Cleaned(raw), k, o);
      UnknownExplained(parse, s, Delete(raw), k, o);
    }
  }

  lemma {:induction false} PauseErrors(parse: Parser, s: State, raw: seq<string>, o: Outcome, t: State)
    requires Paused(parse, s, raw, o, t) && o.Failed?
    ensures Explains(parse, s, Pause(raw), o.error)
  {
    hide Clean, UnknownAt, HandlesOf, Remade, LastsOf, Tagged, Listed;
    var names := Cleaned(raw);
    if raw != [] {
      if k: nat :| UnknownAt(s, names, k, o) {
        UnknownExplained(parse, s, Pause(raw), k, o);
      } else {
        var k: nat :| PauseStops(parse, s, names, k, o, t);
        assert names[k] in names && Known(s, names[k]);
      }
    }
  }

  lemma {:induction false} ResumeErrors(parse: Parser, s: State, raw: seq<string>, o: Outcome, t: State)
    requires Resumed(parse, s, raw, o, t) && o.Failed?
    ensures Explains(parse, s, Resume(raw), o.error)
  {
    hide Clean, Swapped, DropParsed, Withdrawn, Tagged, Listed, PausedIn;
    var names := Cleaned(raw);
    if raw != [] {
      if k: nat :| UnresumableAt(s, names, k, o) {
        assert names[k] in names;
      } else {
        var sel := Flags(s.config, names);
        var n: nat :| ResumeStops(parse, s, sel, n, o, t);
        assert sel[n] in sel && sel[n] in names;
      }
    }
  }

  // ---------- No service is lost track of ----------

  // Every service that was ever served is registered or closed.
  ghost predicate Tracked(s: State) {
    forall h :: h in s.served ==> Kept(s, h)
  }

  ghost predicate Kept(s: State, h: Handle) {
    h in s.closed || exists a :: a in s.registry && s.registry[a] == h
  }

  lemma {:induction false} SwapTracked(s: State, name: string)
    requires Tracked(s)
    ensures Tracked(Swap(s, name)) && Tracked(DropParsed(s, name))
  {
    var d, t := DropParsed(s, name), Swap(s, name);
    assert t.registry[name] == s.parses;
    forall h | h in s.served ensures Kept(d, h) && Kept(t, h) {
      assert Kept(s, h);
      if a :| a in s.registry && s.registry[a] == h && a != name {
        assert a in d.registry && d.registry[a] == h && a in t.registry && t.registry[a] == h;
      }
    }
    assert Kept(t, s.parses);
  }

  lemma {:induction false} SwappedTracked(s: State, names: seq<string>)
    requires Tracked(s)
    ensures Tracked(Swapped(s, names))
  {
    hide Swap, Tracked;
    if names != [] {
      SwappedTracked(s, names[..|names| - 1]);
      SwapTracked(Swapped(s, names[..|names| - 1]), names[|names| - 1]);
    }
  }

  // The same table, more closed, another list: still tracked.
  lemma {:induction false} MoreTracked(s: State, t: State)
    requires Tracked(s) && t.registry == s.registry && t.served == s.served && s.closed <= t.closed
    ensures Tracked(t)
  {
    forall h | h in t.served ensures Kept(t, h) {
      assert Kept(s, h);
    }
  }

  lemma {:induction false} JoinedTracked(s: State, names: seq<string>)
    requires Tracked(s) && Distinct(names) && forall n :: n in names ==> n !in s.registry
    ensures Tracked(Joined(s, names))
  {
    var t := Joined(s, names);
    AddedFacts(s.registry, names, s.parses);
    forall h | h in t.served ensures Kept(t, h) {
      if h in s.served {
        assert Kept(s, h);
        if a :| a in s.registry && s.registry[a] == h {
          assert a in t.registry && t.registry[a] == h;
        }
      } else {
        var a := names[h - s.parses];
        assert a in names && names[t.registry[a] - s.parses] == a;
        assert a in t.registry && t.registry[a] == h;
      }
    }
  }

  lemma {:induction false} DeletedTracked(s: State, raw: seq<string>, o: Outcome, t: State)
    requires Tracked(s) && Deleted(s, raw, o, t)
    ensures Tracked(t)
  {
    hide Clean, Without, UnknownAt;
    forall h | h in t.served ensures Kept(t, h) {
      assert Kept(s, h);
      if a :| a in s.registry && s.registry[a] == h && t != s {
        assert a !in Cleaned(raw) ==> a in t.registry && t.registry[a] == h;
      }
    }
  }

  lemma {:induction false} CreatedTracked(parse: Parser, s: State, data: seq<Entry>, o: Outcome, t: State)
    requires Tracked(s) && Created(parse, s, data, o, t)
    ensures Tracked(t)
  {
    hide Clean, Joined, Tracked;
    CreateAllOrNothing(parse, s, data, o, t);
    if o == Done {
      CreatedJoins(parse, s, data, t);
      FitNames(parse, s, data);
      JoinedTracked(s, NamesOf(data));
      MoreTracked(Joined(s, NamesOf(data)), t);
    } else {
      MoreTracked(s, t);
    }
  }

  lemma {:induction false} UpdatedTracked(parse: Parser, s: State, data: seq<Entry>, o: Outcome, t: State)
    requires Tracked(s) && Updated(parse, s, data, o, t)
    ensures Tracked(t)
  {
    hide Clean, Tracked, Swapped, DropParsed, Renewed, UnknownAt;
    if t != s {
      if n: nat :| UpdateStops(parse, s, data, n, o, t) {
        StoppedTracked(s, NamesOf(data), n);
      } else {
        SwappedTracked(s, NamesOf(data));
        MoreTracked(Swapped(s, NamesOf(data)), t);
      }
    }
  }

  lemma {:induction false} StoppedTracked(s: State, names: seq<string>, n: nat)
    requires Tracked(s) && n < |names|
    ensures Tracked(DropParsed(Swapped(s, names[..n]), names[n]))
  {
    hide Tracked;
    SwappedTracked(s, names[..n]);
    SwapTracked(Swapped(s, names[..n]), names[n]);
  }

  lemma {:induction false} PausedTracked(parse: Parser, s: State, raw: seq<string>, o: Outcome, t: State)
    requires Tracked(s) && Paused(parse, s, raw, o, t)
    ensures Tracked(t)
  {
    hide Clean, Tracked, Tagged, UnknownAt, Remade, HandlesOf, LastsOf;
    MoreTracked(s, t);
  }

  lemma {:induction false} ResumedTracked(parse: Parser, s: State, raw: seq<string>, o: Outcome, t: State)
    requires Tracked(s) && Resumed(parse, s, raw, o, t)
    ensures Tracked(t)
  {
    hide Clean, Tracked, Swapped, DropParsed, Tagged, UnresumableAt, Flags, EntriesOf, ParsedUpTo, HandlesOf;
    if t != s {
      var sel := Flags(s.config, Cleaned(raw));
      if n: nat :| ResumeStops(parse, s, sel, n, o, t) {
        StoppedTracked(s, sel, n);
        MoreTracked(DropParsed(Swapped(s, sel[..n]), sel[n]), t);
      } else {
        SwappedTracked(s, sel);
        MoreTracked(Swapped(s, sel), t);
      }
    }
  }

  lemma {:induction false} StepTracked(parse: Parser, s: State, c: Command, o: Outcome, t: State)
    requires Tracked(s) && Step(parse, s, c, o, t)
    ensures Tracked(t)
  {
    hide Tracked, Created, Updated, Deleted, Paused, Resumed;
    match c {
      case Create(data) => CreatedTracked(parse, s, data, o, t);
      case Update(data) => UpdatedTracked(parse, s, data, o, t);
      case Delete(names) => DeletedTracked(s, names, o, t);
      case Pause(names) => PausedTracked(parse, s, names, o, t);
      case Resume(names) => ResumedTracked(parse, s, names, o, t);
    }
  }

  // In every run, parsing failing at any point, every service that was served and is not closed is registered.
  lemma {:induction false} EveryRunTracks(parse: Parser, states: seq<State>, cs: seq<Command>, os: seq<Outcome>, i: nat)
    requires Run(parse, states, cs, os) && states[0].served == {} && i <= |cs|
    ensures Tracked(states[i])
  {
    hide Tracked, Step;
    if i == 0 {
      NoneServed(states[0]);
    } else {
      EveryRunTracks(parse, states, cs, os, i - 1);
      StepTracked(parse, states[i - 1], cs[i - 1], os[i - 1], states[i]);
    }
  }

  lemma {:induction false} NoneServed(s: State)
    requires s.served == {}
    ensures Tracked(s)
  {
  }

  // ---------- Batches ----------

  // The services made again when a pause is taken back are those whose configuration parses.
  lemma {:induction false} RemadeExactly(parse: Parser, entries: seq<Entry>, base: nat, h: Handle)
    ensures h in Remade(parse, entries, base) <==> base <= h < base + |entries| && parse(entries[h - base], h)
  {
    if entries != [] {
      RemadeExactly(parse, entries[..|entries| - 1], base, h);
    }
  }

  // The names resumed are those flagged paused, each in its place in the batch.
  lemma {:induction false} FlagsInPlace(cfg: seq<Entry>, a: seq<string>, n: string, b: seq<string>)
    ensures Flags(cfg, a + [n] + b) == Flags(cfg, a) + (if PausedIn(cfg, n) then [n] else []) + Flags(cfg, b)
    decreases |b|
  {
    hide Flags, PausedIn;
    if b == [] {
      NoFlags(cfg);
      FlagsOneMore(cfg, a, n);
      assert a + [n] + b == a + [n];
    } else {
      var k := |b| - 1;
      FlagsInPlace(cfg, a, n, b[..k]);
      FlagsOneMore(cfg, a + [n] + b[..k], b[k]);
      FlagsOneMore(cfg, b[..k], b[k]);
      assert a + [n] + b[..k] + [b[k]] == a + [n] + b && b[..k] + [b[k]] == b;
    }
  }

  lemma {:induction false} FlagsOneMore(cfg: seq<Entry>, names: seq<string>, n: string)
    ensures Flags(cfg, names + [n]) == Flags(cfg, names) + if PausedIn(cfg, n) then [n] else []
  {
    hide PausedIn;
    assert (names + [n])[..|names|] == names;
  }

  lemma {:induction false} NoFlags(cfg: seq<Entry>)
    ensures Flags(cfg, []) == []
  {
  }

  // A delete leaves the other entries, each in its place in the list.
  lemma {:induction false} WithoutInPlace(a: seq<Entry>, e: Entry, b: seq<Entry>, names: seq<string>)
    ensures Without(a + [e] + b, names) == Without(a, names) + (if e.name in names then [] else [e]) + Without(b, names)
    decreases |b|
  {
    hide Without;
    if b == [] {
      NothingWithout(names);
      WithoutOneMore(a, e, names);
      assert a + [e] + b == a + [e];
    } else {
      var k := |b| - 1;
      WithoutInPlace(a, e, b[..k], names);
      WithoutOneMore(a + [e] + b[..k], b[k], names);
      WithoutOneMore(b[..k], b[k], names);
      assert a + [e] + b[..k] + [b[k]] == a + [e] + b && b[..k] + [b[k]] == b;
    }
  }

  lemma {:induction false} WithoutOneMore(cfg: seq<Entry>, e: Entry, names: seq<string>)
    ensures Without(cfg + [e], names) == Without(cfg, names) + if e.name in names then [] else [e]
  {
    assert (cfg + [e])[..|cfg|] == cfg;
  }

  lemma {:induction false} NothingWithout(names: seq<string>)
    ensures Without([], names) == []
  {
  }
}
