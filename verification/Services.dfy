// The commands on batches of services: what each does to the registry and to the configuration.

module Services {
  import opened Common
  import opened Registries
  import opened Text

  datatype Value = Flag(b: bool) | Other(text: string)

  // The configuration of a service. The settings that no command looks at are kept as one text.
  datatype Entry = Entry(name: string, addr: string, rest: string, metadata: Option<map<string, Value>>)

  // Services are numbered by the parse that made them, so the next number is the count of parses.
  datatype State = State(
    registry: map<string, Handle>,
    config: seq<Entry>,
    closed: set<Handle>,
    served: set<Handle>,
    parses: nat)

  datatype Error =
    | EmptyBatch
    | NameRequired
    | AlreadyExists(name: string)
    | NotFound(name: string)
    | NoConfig(name: string)
    | ParseFailed(name: string)

  datatype Outcome = Done | Failed(error: Error)

  // Whether the n-th parse of a configuration succeeds.
  type Parser = (Entry, nat) -> bool

  const PAUSED := "paused"

  function Named(e: Entry): Entry {
    e.(name := Clean(e.name))
  }

  function NamesOf(data: seq<Entry>): (r: seq<string>)
    ensures |r| == |data|
    ensures forall i :: 0 <= i < |data| ==> r[i] == Clean(data[i].name)
  {
    seq(|data|, i requires 0 <= i < |data| => Clean(data[i].name))
  }

  function Cleaned(names: seq<string>): (r: seq<string>)
    ensures |r| == |names|
    ensures forall i :: 0 <= i < |names| ==> r[i] == Clean(names[i])
  {
    seq(|names|, i requires 0 <= i < |names| => Clean(names[i]))
  }

  function SetOf(names: seq<string>): set<string> {
    set n | n in names
  }

  function Range(lo: nat, hi: nat): (r: set<Handle>)
    ensures forall h :: h in r <==> lo <= h < hi
  {
    if hi <= lo then {} else Range(lo, hi - 1) + {hi - 1}
  }

  function HandlesOf(m: map<string, Handle>, names: seq<string>): set<Handle> {
    set n | n in names && n in m :: m[n]
  }

  ghost predicate Distinct(names: seq<string>) {
    forall i, j :: 0 <= i < j < |names| ==> names[i] != names[j]
  }

  // ---------- The configuration list ----------

  // The position of the first entry with a name, or the length of the list.
  function First(cfg: seq<Entry>, name: string): (r: nat)
    ensures r <= |cfg|
    ensures r < |cfg| ==> cfg[r].name == name
    ensures forall i :: 0 <= i < r ==> cfg[i].name != name
  {
    if cfg == [] || cfg[0].name == name then 0 else 1 + First(cfg[1..], name)
  }

  predicate Listed(cfg: seq<Entry>, name: string) {
    First(cfg, name) < |cfg|
  }

  predicate Flagged(e: Entry) {
    e.metadata.Some? && PAUSED in e.metadata.value && e.metadata.value[PAUSED] == Flag(true)
  }

  // Setting the flag makes a table when there is none, clearing it drops a table that becomes empty.
  function Tag(e: Entry, on: bool): Entry {
    if on then
      var m := if e.metadata.Some? then e.metadata.value else map[];
      e.(metadata := Some(m[PAUSED := Flag(true)]))
    else if e.metadata.None? then e
    else
      var m := e.metadata.value - {PAUSED};
      e.(metadata := if m == map[] then None else Some(m))
  }

  // Only the first entry of a name is tagged, and only the first is replaced.
  function TagFirst(cfg: seq<Entry>, name: string, on: bool): (r: seq<Entry>)
    ensures |r| == |cfg|
  {
    var i := First(cfg, name);
    if i < |cfg| then cfg[i := Tag(cfg[i], on)] else cfg
  }

  function Tagged(cfg: seq<Entry>, names: seq<string>, on: bool): (r: seq<Entry>)
    ensures |r| == |cfg|
  {
    if names == [] then cfg
    else TagFirst(Tagged(cfg, names[..|names| - 1], on), names[|names| - 1], on)
  }

  function RenewFirst(cfg: seq<Entry>, e: Entry): (r: seq<Entry>)
    ensures |r| == |cfg|
  {
    var i := First(cfg, e.name);
    if i < |cfg| then cfg[i := e] else cfg
  }

  function Renewed(cfg: seq<Entry>, data: seq<Entry>): (r: seq<Entry>)
    ensures |r| == |cfg|
  {
    if data == [] then cfg
    else RenewFirst(Renewed(cfg, data[..|data| - 1]), data[|data| - 1])
  }

  function Without(cfg: seq<Entry>, names: seq<string>): seq<Entry> {
    if cfg == [] then []
    else
      var rest := Without(cfg[..|cfg| - 1], names);
      if cfg[|cfg| - 1].name in names then rest else rest + [cfg[|cfg| - 1]]
  }

  // ---------- Create ----------

  function Added(m: map<string, Handle>, names: seq<string>, base: nat): map<string, Handle> {
    if names == [] then m
    else Added(m, names[..|names| - 1], base)[names[|names| - 1] := base + |names| - 1]
  }

  // New services under these names, all served.
  function Joined(s: State, names: seq<string>): (t: State)
    ensures t.config == s.config && t.closed == s.closed && t.parses == s.parses + |names|
  {
    s.(registry := Added(s.registry, names, s.parses), served := s.served + Range(s.parses, s.parses + |names|),
       parses := s.parses + |names|)
  }

  function NamedAll(data: seq<Entry>): (r: seq<Entry>)
    ensures |r| == |data|
    ensures forall i :: 0 <= i < |data| ==> r[i] == Named(data[i])
  {
    seq(|data|, i requires 0 <= i < |data| => Named(data[i]))
  }

  predicate Fit(parse: Parser, s: State, e: Entry, i: nat) {
    Clean(e.name) != "" && Clean(e.name) !in s.registry && parse(Named(e), s.parses + i)
  }

  ghost predicate FitUpTo(parse: Parser, s: State, data: seq<Entry>, k: nat)
    requires k <= |data|
  {
    forall i :: 0 <= i < k ==> Fit(parse, s, data[i], i)
  }

  // The k-th configuration is refused before anything is registered.
  ghost predicate RefusedAt(parse: Parser, s: State, data: seq<Entry>, k: nat, o: Outcome, t: State) {
    && k < |data| && FitUpTo(parse, s, data, k)
    && var name := Clean(data[k].name);
      if name == "" then o == Failed(NameRequired) && t == s.(parses := s.parses + k)
      else if name in s.registry then o == Failed(AlreadyExists(name)) && t == s.(parses := s.parses + k)
      else
        !parse(Named(data[k]), s.parses + k) && o == Failed(ParseFailed(name)) && t == s.(parses := s.parses + k + 1)
  }

  // The k-th name was registered earlier in the batch. What was registered is taken back and closed.
  ghost predicate RepeatedAt(parse: Parser, s: State, data: seq<Entry>, k: nat, o: Outcome, t: State) {
    && k < |data| && FitUpTo(parse, s, data, |data|)
    && var names := NamesOf(data);
      && Distinct(names[..k]) && names[k] in names[..k] && o == Failed(AlreadyExists(names[k]))
      && t == s.(closed := s.closed + Range(s.parses, s.parses + k), parses := s.parses + |data|)
  }

  ghost predicate Accepted(parse: Parser, s: State, data: seq<Entry>, o: Outcome, t: State) {
    && FitUpTo(parse, s, data, |data|) && Distinct(NamesOf(data)) && o == Done
    && t == Joined(s, NamesOf(data)).(config := s.config + NamedAll(data))
  }

  ghost predicate Created(parse: Parser, s: State, data: seq<Entry>, o: Outcome, t: State) {
    if data == [] then o == Failed(EmptyBatch) && t == s
    else
      || (exists k :: RefusedAt(parse, s, data, k, o, t))
      || (exists k :: RepeatedAt(parse, s, data, k, o, t))
      || Accepted(parse, s, data, o, t)
  }

  // ---------- Update ----------

  predicate Known(s: State, name: string) {
    name != "" && name in s.registry
  }

  ghost predicate AllKnown(s: State, names: seq<string>) {
    forall n :: n in names ==> Known(s, n)
  }

  ghost predicate UnknownAt(s: State, names: seq<string>, k: nat, o: Outcome) {
    && k < |names| && AllKnown(s, names[..k]) && !Known(s, names[k])
    && o == Failed(if names[k] == "" then NameRequired else NotFound(names[k]))
  }

  // A service is closed and taken out, and a parse that succeeds puts a served one in its place.
  function Drop(s: State, name: string): State {
    s.(registry := s.registry - {name},
       closed := s.closed + (if name in s.registry then {s.registry[name]} else {}))
  }

  function Swap(s: State, name: string): State {
    Drop(s, name).(registry := s.registry[name := s.parses], served := s.served + {s.parses}, parses := s.parses + 1)
  }

  function Swapped(s: State, names: seq<string>): (t: State)
    ensures t.parses == s.parses + |names| && t.config == s.config
    ensures t.registry.Keys == s.registry.Keys + SetOf(names)
  {
    if names == [] then s else Swap(Swapped(s, names[..|names| - 1]), names[|names| - 1])
  }

  function DropParsed(s: State, name: string): State {
    Drop(s, name).(parses := s.parses + 1)
  }

  ghost predicate ParsedUpTo(parse: Parser, s: State, entries: seq<Entry>, n: nat)
    requires n <= |entries|
  {
    forall i :: 0 <= i < n ==> parse(entries[i], s.parses + i)
  }

  // The n-th new configuration does not parse: the services before it run anew, it is gone, the rest is as before.
  ghost predicate UpdateStops(parse: Parser, s: State, data: seq<Entry>, n: nat, o: Outcome, t: State) {
    && n < |data| && ParsedUpTo(parse, s, NamedAll(data), n) && !parse(Named(data[n]), s.parses + n)
    && o == Failed(ParseFailed(Clean(data[n].name)))
    && t == DropParsed(Swapped(s, NamesOf(data)[..n]), Clean(data[n].name))
  }

  ghost predicate UpdateDone(parse: Parser, s: State, data: seq<Entry>, o: Outcome, t: State) {
    && ParsedUpTo(parse, s, NamedAll(data), |data|) && o == Done
    && t == Swapped(s, NamesOf(data)).(config := Renewed(s.config, data))
  }

  ghost predicate Updated(parse: Parser, s: State, data: seq<Entry>, o: Outcome, t: State) {
    if data == [] then o == Failed(EmptyBatch) && t == s
    else
      || ((exists k :: UnknownAt(s, NamesOf(data), k, o)) && t == s)
      || (AllKnown(s, NamesOf(data))
          && ((exists n :: UpdateStops(parse, s, data, n, o, t)) || UpdateDone(parse, s, data, o, t)))
  }

  // ---------- Delete ----------

  ghost predicate Deleted(s: State, raw: seq<string>, o: Outcome, t: State) {
    var names := Cleaned(raw);
    if raw == [] then o == Failed(EmptyBatch) && t == s
    else
      || ((exists k :: UnknownAt(s, names, k, o)) && t == s)
      || (AllKnown(s, names) && o == Done
          && t == s.(registry := s.registry - SetOf(names), config := Without(s.config, names),
                     closed := s.closed + HandlesOf(s.registry, names)))
  }

  // ---------- Pause ----------

  // The last entry of a name: the table of configurations keeps the last one it sees.
  function LastOf(cfg: seq<Entry>, name: string): (r: Option<Entry>)
    ensures r.Some? <==> Listed(cfg, name)
  {
    if cfg == [] then None
    else if cfg[|cfg| - 1].name == name then
      Some(cfg[|cfg| - 1])
    else
      ListedPrefix(cfg, name);
      LastOf(cfg[..|cfg| - 1], name)
  }

  ghost predicate LastAt(cfg: seq<Entry>, name: string, i: nat) {
    i < |cfg| && cfg[i].name == name && forall j :: i < j < |cfg| ==> cfg[j].name != name
  }

  // It is the entry after which the name does not occur again.
  lemma {:induction false} LastOfIsLast(cfg: seq<Entry>, name: string)
    ensures Listed(cfg, name) <==> exists i: nat :: LastAt(cfg, name, i)
    ensures forall i: nat :: LastAt(cfg, name, i) ==> LastOf(cfg, name) == Some(cfg[i])
  {
    if cfg != [] {
      var k := |cfg| - 1;
      if cfg[k].name == name {
        assert LastAt(cfg, name, k);
        assert LastOf(cfg, name).Some?;
      } else {
        ListedPrefix(cfg, name);
        LastOfIsLast(cfg[..k], name);
        assert forall i: nat :: LastAt(cfg, name, i) <==> i < k && LastAt(cfg[..k], name, i);
      }
    }
  }

  lemma ListedPrefix(cfg: seq<Entry>, name: string)
    requires cfg != [] && cfg[|cfg| - 1].name != name
    ensures Listed(cfg, name) <==> Listed(cfg[..|cfg| - 1], name)
  {
    var i, j := First(cfg, name), First(cfg[..|cfg| - 1], name);
    if i < |cfg| {
      assert cfg[..|cfg| - 1][i].name == name;
    }
  }

  ghost predicate AllListed(cfg: seq<Entry>, names: seq<string>) {
    forall n :: n in names ==> Listed(cfg, n)
  }

  function LastsOf(cfg: seq<Entry>, names: seq<string>): (r: seq<Entry>)
    requires AllListed(cfg, names)
    ensures |r| == |names|
    ensures forall i :: 0 <= i < |names| ==> Some(r[i]) == LastOf(cfg, names[i])
  {
    seq(|names|, i requires 0 <= i < |names| => assert names[i] in names; LastOf(cfg, names[i]).value)
  }

  // The services made when these configurations are parsed again.
  function Remade(parse: Parser, entries: seq<Entry>, base: nat): set<Handle> {
    if entries == [] then {}
    else
      var k := |entries| - 1;
      Remade(parse, entries[..k], base) + (if parse(entries[k], base + k) then {base + k} else {})
  }

  // The k-th service has no configuration: the pause is taken back, but the services closed so far stay closed,
  // because their names are still registered and the services made for them are refused and closed.
  ghost predicate PauseStops(parse: Parser, s: State, names: seq<string>, k: nat, o: Outcome, t: State) {
    && k < |names| && AllListed(s.config, names[..k]) && !Listed(s.config, names[k])
    && o == Failed(NoConfig(names[k]))
    && t == s.(closed := s.closed + HandlesOf(s.registry, names[..k])
                         + Remade(parse, LastsOf(s.config, names[..k]), s.parses),
               parses := s.parses + k)
  }

  ghost predicate PauseDone(s: State, names: seq<string>, o: Outcome, t: State) {
    && AllListed(s.config, names) && o == Done
    && t == s.(closed := s.closed + HandlesOf(s.registry, names), config := Tagged(s.config, names, true))
  }

  ghost predicate Paused(parse: Parser, s: State, raw: seq<string>, o: Outcome, t: State) {
    var names := Cleaned(raw);
    if raw == [] then o == Failed(EmptyBatch) && t == s
    else
      || ((exists k :: UnknownAt(s, names, k, o)) && t == s)
      || (AllKnown(s, names) && ((exists k :: PauseStops(parse, s, names, k, o, t)) || PauseDone(s, names, o, t)))
  }

  // ---------- Resume ----------

  predicate Resumable(s: State, name: string) {
    Known(s, name) && Listed(s.config, name)
  }

  ghost predicate AllResumable(s: State, names: seq<string>) {
    forall n :: n in names ==> Resumable(s, n)
  }

  ghost predicate UnresumableAt(s: State, names: seq<string>, k: nat, o: Outcome) {
    && k < |names| && AllResumable(s, names[..k]) && !Resumable(s, names[k])
    && o == Failed(if names[k] == "" then NameRequired
                   else if names[k] !in s.registry then NotFound(names[k]) else NoConfig(names[k]))
  }

  predicate PausedIn(cfg: seq<Entry>, name: string) {
    Listed(cfg, name) && Flagged(cfg[First(cfg, name)])
  }

  // The names to resume: those flagged paused, in order. The others are skipped.
  function Flags(cfg: seq<Entry>, names: seq<string>): (r: seq<string>)
    ensures forall n :: n in r <==> n in names && PausedIn(cfg, n)
    ensures AllListed(cfg, r)
  {
    if names == [] then []
    else
      var rest := Flags(cfg, names[..|names| - 1]);
      if PausedIn(cfg, names[|names| - 1]) then rest + [names[|names| - 1]] else rest
  }

  function EntriesOf(cfg: seq<Entry>, names: seq<string>): (r: seq<Entry>)
    requires AllListed(cfg, names)
    ensures |r| == |names|
    ensures forall i :: 0 <= i < |names| ==> Listed(cfg, names[i]) && r[i] == cfg[First(cfg, names[i])]
  {
    seq(|names|, i requires 0 <= i < |names| => assert names[i] in names; cfg[First(cfg, names[i])])
  }

  // What is resumed before a failure is closed again and flagged again.
  function Withdrawn(q: State, names: seq<string>): State {
    q.(closed := q.closed + HandlesOf(q.registry, names), config := Tagged(q.config, names, true))
  }

  ghost predicate ResumeStops(parse: Parser, s: State, sel: seq<string>, n: nat, o: Outcome, t: State)
    requires AllListed(s.config, sel)
  {
    && n < |sel| && ParsedUpTo(parse, s, EntriesOf(s.config, sel), n)
    && !parse(EntriesOf(s.config, sel)[n], s.parses + n)
    && o == Failed(ParseFailed(sel[n]))
    && t == Withdrawn(DropParsed(Swapped(s, sel[..n]), sel[n]), sel[..n])
  }

  ghost predicate ResumeDone(parse: Parser, s: State, sel: seq<string>, o: Outcome, t: State)
    requires AllListed(s.config, sel)
  {
    && ParsedUpTo(parse, s, EntriesOf(s.config, sel), |sel|) && o == Done
    && t == Swapped(s, sel).(config := Tagged(s.config, sel, false))
  }

  ghost predicate Resumed(parse: Parser, s: State, raw: seq<string>, o: Outcome, t: State) {
    var names := Cleaned(raw);
    if raw == [] then o == Failed(EmptyBatch) && t == s
    else
      || ((exists k :: UnresumableAt(s, names, k, o)) && t == s)
      || (AllResumable(s, names)
          && var sel := Flags(s.config, names);
            (exists n :: ResumeStops(parse, s, sel, n, o, t)) || ResumeDone(parse, s, sel, o, t))
  }

  // ---------- All commands ----------

  datatype Command =
    | Create(data: seq<Entry>)
    | Update(data: seq<Entry>)
    | Delete(names: seq<string>)
    | Pause(names: seq<string>)
    | Resume(names: seq<string>)

  ghost predicate Step(parse: Parser, s: State, c: Command, o: Outcome, t: State) {
    match c
    case Create(data) => Created(parse, s, data, o, t)
    case Update(data) => Updated(parse, s, data, o, t)
    case Delete(names) => Deleted(s, names, o, t)
    case Pause(names) => Paused(parse, s, names, o, t)
    case Resume(names) => Resumed(parse, s, names, o, t)
  }
}
