// The order of the configuration, and the runs in which the registry and the configuration name the same services.

module ServiceOrder {
  import opened Common
  import opened Registries
  import opened Text
  import opened Services
  import opened ServiceRuns
  import opened ServiceLaws

  function Labels(cfg: seq<Entry>): (r: seq<string>)
    ensures |r| == |cfg|
    ensures forall i :: 0 <= i < |cfg| ==> r[i] == cfg[i].name
  {
    seq(|cfg|, i requires 0 <= i < |cfg| => cfg[i].name)
  }

  function Strip(labels: seq<string>, names: seq<string>): (r: seq<string>)
    ensures forall n :: n in r <==> n in labels && n !in names
  {
    if labels == [] then []
    else
      var rest := Strip(labels[..|labels| - 1], names);
      var last := labels[|labels| - 1];
      assert labels == labels[..|labels| - 1] + [last];
      if last in names then rest else rest + [last]
  }

  lemma {:induction false} StripDistinct(labels: seq<string>, names: seq<string>)
    requires Distinct(labels)
    ensures Distinct(Strip(labels, names))
  {
    if labels != [] {
      StripDistinct(labels[..|labels| - 1], names);
    }
  }

  lemma {:induction false} LabelsOfWithout(cfg: seq<Entry>, names: seq<string>)
    ensures Labels(Without(cfg, names)) == Strip(Labels(cfg), names)
  {
    if cfg != [] {
      var k := |cfg| - 1;
      LabelsOfWithout(cfg[..k], names);
      assert Labels(cfg)[..k] == Labels(cfg[..k]);
      assert Labels(Without(cfg[..k], names) + [cfg[k]]) == Labels(Without(cfg[..k], names)) + [cfg[k].name];
    }
  }

  lemma LabelsOfTagged(cfg: seq<Entry>, names: seq<string>, on: bool)
    ensures Labels(Tagged(cfg, names, on)) == Labels(cfg)
  {
    forall i | 0 <= i < |cfg| ensures Tagged(cfg, names, on)[i].name == cfg[i].name {
      TaggedAt(cfg, names, on, i);
    }
  }

  lemma LabelsOfRenewed(cfg: seq<Entry>, data: seq<Entry>)
    ensures Labels(Renewed(cfg, data)) == Labels(cfg)
  {
    forall i | 0 <= i < |cfg| ensures Renewed(cfg, data)[i].name == cfg[i].name {
      RenewedAt(cfg, data, i);
    }
  }

  // What a command does to the names of the configuration, in order.
  function NextLabels(labels: seq<string>, c: Command, o: Outcome): seq<string> {
    if o != Done then labels
    else if c.Create? then labels + NamesOf(c.data)
    else if c.Delete? then Strip(labels, Cleaned(c.names))
    else labels
  }

  // In every state the names keep their order, but for those appended by a create and those deleted.
  lemma ConfigKeepsOrder(parse: Parser, s: State, c: Command, o: Outcome, t: State)
    requires Step(parse, s, c, o, t)
    ensures Labels(t.config) == NextLabels(Labels(s.config), c, o)
  {
    hide Clean, Labels, Strip, Created, Resumed, Tagged, Swapped;
    match c {
      case Create(data) =>
        CreateAllOrNothing(parse, s, data, o, t);
        AppendedLabels(s.config, data);
      case Update(data) =>
        LabelsOfRenewed(s.config, data);
      case Delete(names) =>
        LabelsOfWithout(s.config, Cleaned(names));
      case Pause(names) =>
        LabelsOfTagged(s.config, Cleaned(names), true);
      case Resume(names) =>
        ResumeKeepsLabels(parse, s, names, o, t);
    }
  }

  lemma AppendedLabels(cfg: seq<Entry>, data: seq<Entry>)
    ensures Labels(cfg + NamedAll(data)) == Labels(cfg) + NamesOf(data)
  {
  }

  lemma ResumeKeepsLabels(parse: Parser, s: State, raw: seq<string>, o: Outcome, t: State)
    requires Resumed(parse, s, raw, o, t)
    ensures Labels(t.config) == Labels(s.config)
  {
    hide Clean, Labels, Tagged;
    if t != s {
      var sel := Flags(s.config, Cleaned(raw));
      LabelsOfTagged(s.config, sel, false);
      if n: nat :| ResumeStops(parse, s, sel, n, o, t) {
        LabelsOfTagged(s.config, sel[..n], true);
      }
    }
  }

  // ---------- Tidy runs ----------

  // The registry and the configuration name the same services, each once.
  ghost predicate Tidy(s: State) {
    s.registry.Keys == SetOf(Labels(s.config)) && Distinct(Labels(s.config))
  }

  // No update or resume failed to parse what it had already taken out.
  predicate Calm(c: Command, o: Outcome) {
    (c.Update? || c.Resume?) ==> !(o.Failed? && o.error.ParseFailed?)
  }

  function NextKeys(keys: set<string>, c: Command, o: Outcome): set<string> {
    if o != Done then keys
    else if c.Create? then keys + SetOf(NamesOf(c.data))
    else if c.Delete? then keys - SetOf(Cleaned(c.names))
    else keys
  }

  lemma UpdateCalmKeys(parse: Parser, s: State, data: seq<Entry>, o: Outcome, t: State)
    requires Updated(parse, s, data, o, t) && Calm(Update(data), o)
    ensures t.registry.Keys == s.registry.Keys
  {
    hide Clean;
    if t != s {
      SwappedListing(s, NamesOf(data));
    }
  }

  lemma ResumeCalmKeys(parse: Parser, s: State, raw: seq<string>, o: Outcome, t: State)
    requires Resumed(parse, s, raw, o, t) && Calm(Resume(raw), o)
    ensures t.registry.Keys == s.registry.Keys
  {
    hide Clean, Tagged;
    if t != s {
      var sel := Flags(s.config, Cleaned(raw));
      CleanedClean(raw);
      SelectedKnown(s, Cleaned(raw), sel);
      SwappedListing(s, sel);
    }
  }

  lemma CalmKeys(parse: Parser, s: State, c: Command, o: Outcome, t: State)
    requires Step(parse, s, c, o, t) && Calm(c, o)
    ensures t.registry.Keys == NextKeys(s.registry.Keys, c, o)
  {
    hide Clean, Created, Updated, Resumed;
    match c {
      case Create(data) => CreateAllOrNothing(parse, s, data, o, t);
      case Update(data) => UpdateCalmKeys(parse, s, data, o, t);
      case Delete(names) =>
      case Pause(names) =>
      case Resume(names) => ResumeCalmKeys(parse, s, names, o, t);
    }
  }

  lemma NewLabelsDistinct(parse: Parser, s: State, data: seq<Entry>, o: Outcome, t: State)
    requires Tidy(s) && Created(parse, s, data, o, t) && o == Done
    ensures Distinct(Labels(s.config) + NamesOf(data))
  {
    hide Clean;
    CreateAllOrNothing(parse, s, data, o, t);
    FitNames(parse, s, data);
    var a, b := Labels(s.config), NamesOf(data);
    forall i, j | 0 <= i < j < |a + b| ensures (a + b)[i] != (a + b)[j] {
      if i < |a| <= j {
        assert a[i] in SetOf(a) && b[j - |a|] in b;
      }
    }
  }

  lemma TidyKeeps(parse: Parser, s: State, c: Command, o: Outcome, t: State)
    requires Tidy(s) && Step(parse, s, c, o, t) && Calm(c, o)
    ensures Tidy(t)
  {
    hide Clean, Step, Labels;
    ConfigKeepsOrder(parse, s, c, o, t);
    CalmKeys(parse, s, c, o, t);
    if o == Done && c.Create? {
      StepCreates(parse, s, c.data, o, t);
      NewLabelsDistinct(parse, s, c.data, o, t);
    } else if o == Done && c.Delete? {
      StripDistinct(Labels(s.config), Cleaned(c.names));
    }
  }

  lemma StepCreates(parse: Parser, s: State, data: seq<Entry>, o: Outcome, t: State)
    requires Step(parse, s, Create(data), o, t)
    ensures Created(parse, s, data, o, t)
  {
  }

  // In every run in which no update or resume fails to parse, the registry and the configuration
  // name the same services, each once.
  lemma {:induction false} EveryCalmRunIsTidy(parse: Parser, states: seq<State>, cs: seq<Command>, os: seq<Outcome>, i: nat)
    requires Run(parse, states, cs, os) && Tidy(states[0]) && i <= |cs|
    requires forall j :: 0 <= j < i ==> Calm(cs[j], os[j])
    ensures Tidy(states[i])
  {
    hide Tidy, Step, Calm;
    if i > 0 {
      EveryCalmRunIsTidy(parse, states, cs, os, i - 1);
      TidyKeeps(parse, states[i - 1], cs[i - 1], os[i - 1], states[i]);
    }
  }

  // ---------- Exactly which commands spoil it ----------

  // An update of known services, or a resume of resumable ones, with a configuration that does not parse in its turn.
  ghost predicate Spoils(parse: Parser, s: State, c: Command) {
    match c
    case Update(data) => AllKnown(s, NamesOf(data)) && !ParsedUpTo(parse, s, NamedAll(data), |data|)
    case Resume(raw) =>
      var sel := Flags(s.config, Cleaned(raw));
      AllResumable(s, Cleaned(raw)) && !ParsedUpTo(parse, s, EntriesOf(s.config, sel), |sel|)
    case _ => false
  }

  lemma UpdateSpoils(parse: Parser, s: State, data: seq<Entry>, o: Outcome, t: State)
    requires Updated(parse, s, data, o, t)
    ensures Calm(Update(data), o) <==> !Spoils(parse, s, Update(data))
    ensures !Calm(Update(data), o) ==> DropsOne(s, o.error.name, t)
  {
    hide Clean, Swapped;
    if data != [] {
      if k: nat :| UnknownAt(s, NamesOf(data), k, o) && t == s {
        assert NamesOf(data)[k] in NamesOf(data);
      } else if n: nat :| UpdateStops(parse, s, data, n, o, t) {
        assert NamedAll(data)[n] == Named(data[n]);
        StopDropsOne(s, NamesOf(data), n);
      }
    }
  }

  // The name was registered and is not any more; no other name and no label changed.
  ghost predicate DropsOne(s: State, a: string, t: State) {
    Known(s, a) && t.registry.Keys == s.registry.Keys - {a} && Labels(t.config) == Labels(s.config)
  }

  lemma StopDropsOne(s: State, names: seq<string>, n: nat)
    requires n < |names| && AllKnown(s, names)
    ensures DropsOne(s, names[n], DropParsed(Swapped(s, names[..n]), names[n]))
  {
    hide Labels;
    assert names[n] in names;
    SwappedListing(s, names[..n]);
  }

  lemma ResumeSpoils(parse: Parser, s: State, raw: seq<string>, o: Outcome, t: State)
    requires Resumed(parse, s, raw, o, t)
    ensures Calm(Resume(raw), o) <==> !Spoils(parse, s, Resume(raw))
    ensures !Calm(Resume(raw), o) ==> DropsOne(s, o.error.name, t)
  {
    hide Clean, Swapped, Tagged, PausedIn, Labels;
    var names := Cleaned(raw);
    var sel := Flags(s.config, names);
    if raw == [] {
      assert sel == [];
    } else if k: nat :| UnresumableAt(s, names, k, o) && t == s {
      assert names[k] in names;
    } else if n: nat :| ResumeStops(parse, s, sel, n, o, t) {
      CleanedClean(raw);
      SelectedKnown(s, names, sel);
      StopDropsOne(s, sel, n);
      LabelsOfTagged(s.config, sel[..n], true);
    }
  }

  lemma CalmIff(parse: Parser, s: State, c: Command, o: Outcome, t: State)
    requires Step(parse, s, c, o, t)
    ensures Calm(c, o) <==> !Spoils(parse, s, c)
    ensures !Calm(c, o) ==> DropsOne(s, o.error.name, t)
  {
    hide Created, Updated, Deleted, Paused, Resumed, DropsOne;
    match c {
      case Update(data) => UpdateSpoils(parse, s, data, o, t);
      case Resume(names) => ResumeSpoils(parse, s, names, o, t);
      case _ =>
    }
  }

  lemma DroppedIsLost(s: State, a: string, t: State)
    requires Inv(s) && Tidy(s) && DropsOne(s, a, t)
    ensures !Tidy(t) && Lost(t, a)
  {
    hide Clean;
    var i :| 0 <= i < |s.config| && Labels(s.config)[i] == a;
    assert a in Labels(t.config) && |Labels(t.config)| == |t.config|;
    assert t.config[i].name == Labels(t.config)[i];
  }

  // From a tidy state, the next is tidy exactly when the command is none of the two that spoil it; and a spoiling
  // command loses the service whose configuration did not parse.
  lemma TidyIff(parse: Parser, s: State, c: Command, o: Outcome, t: State)
    requires Inv(s) && Tidy(s) && Step(parse, s, c, o, t)
    ensures Tidy(t) <==> !Spoils(parse, s, c)
    ensures Spoils(parse, s, c) ==> o.Failed? && o.error.ParseFailed? && Lost(t, o.error.name)
  {
    hide Inv, Tidy, Step, Lost, Spoils, DropsOne;
    CalmIff(parse, s, c, o, t);
    if Calm(c, o) {
      TidyKeeps(parse, s, c, o, t);
    } else {
      DroppedIsLost(s, o.error.name, t);
    }
  }

  // A run stays tidy exactly as long as no command spoils it.
  lemma {:induction false} RunTidyIff(parse: Parser, states: seq<State>, cs: seq<Command>, os: seq<Outcome>, i: nat)
    requires Run(parse, states, cs, os) && Inv(states[0]) && Tidy(states[0]) && i <= |cs|
    ensures (forall j :: 0 <= j <= i ==> Tidy(states[j])) <==> forall j :: 0 <= j < i ==> !Spoils(parse, states[j], cs[j])
  {
    hide Inv, Tidy, Step, Spoils;
    if i > 0 {
      RunTidyIff(parse, states, cs, os, i - 1);
      EveryRunKeeps(parse, states, cs, os, i - 1);
      if Tidy(states[i - 1]) {
        TidyIff(parse, states[i - 1], cs[i - 1], os[i - 1], states[i]);
      }
    }
  }

  // Creating a lost service again is accepted and leaves two entries of its name, the old one first.
  lemma RecreatedTwice(parse: Parser, s: State, data: seq<Entry>, t: State, a: string)
    requires Lost(s, a) && Created(parse, s, data, Done, t) && a in NamesOf(data)
    ensures a in t.registry && !Distinct(Labels(t.config)) && Lead(t.config, a) == Lead(s.config, a)
  {
    hide Clean, Created, Fit, Tagged;
    CreateAllOrNothing(parse, s, data, Done, t);
    AppendedLabels(s.config, data);
    var i, j := First(s.config, a), First(NamedAll(data), a);
    LeadOfNamed(data, a);
    LeadOfPair(s.config, NamedAll(data), a);
    assert Labels(t.config)[i] == a && Labels(t.config)[|s.config| + j] == a;
  }
}
