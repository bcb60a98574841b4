// The traffic report: byte counters that handlers count up while the observer reads them, reports them to a server
// and stores back what was not reported. Every atomic operation is one step, so all interleavings are covered.

module Traffic {
  // The counters are 64 bits wide.
  const WORD := 0x1_0000_0000_0000_0000

  // Where the observer is: before each of its reads and stores, waiting for the server or for the observer service.
  datatype Stage = Idle | ReadIn | ReadOut | Sending | AgainIn | AgainOut | StoreIn | StoreOut | Observing

  // One direction: the counter, the amount read for the report, the amount read after it was acknowledged.
  // The rest is history: bytes counted, bytes acknowledged, bytes counted between the second read and the store that
  // follows it, those of the current such window, and bytes counted since the flag was last taken.
  datatype Channel = Channel(
    live: nat, snap: nat, again: nat,
    counted: nat, acked: nat, late: nat, window: nat, news: nat)

  // The updated flag is raised after each count, so counts may still owe it. An observer event may be pending,
  // and a report is refused when the last one sent was not acknowledged.
  datatype State = State(
    inp: Channel, out: Channel,
    updated: bool, owed: nat, stage: Stage, pending: bool, refused: bool)

  datatype Event =
    | CountIn(n: nat)
    | CountOut(n: nat)
    | CountOther            // connections and errors raise the flag as well
    | Raise
    | Tick(observed: bool)
    | Advance               // the observer's next read or store
    | Sent(success: bool)
    | Observed(ok: bool)

  predicate InWindowIn(g: Stage) {
    g == AgainOut || g == StoreIn
  }

  predicate InWindowOut(g: Stage) {
    g == StoreIn || g == StoreOut
  }

  predicate InFlightIn(g: Stage) {
    g == AgainIn || InWindowIn(g)
  }

  predicate InFlightOut(g: Stage) {
    g == AgainIn || g == AgainOut || InWindowOut(g)
  }

  function Count(c: Channel, n: nat, open: bool): Channel {
    c.(live := (c.live + n) % WORD, counted := c.counted + n, news := c.news + n,
       late := if open then c.late + n else c.late, window := if open then c.window + n else c.window)
  }

  function Snap(c: Channel): Channel {
    c.(snap := c.live)
  }

  function Again(c: Channel): Channel {
    c.(again := c.live, window := 0)
  }

  // The subtraction is one of unsigned words.
  function Store(c: Channel): Channel {
    c.(live := (c.again - c.snap) % WORD, window := 0)
  }

  function Taken(c: Channel): Channel {
    c.(news := 0)
  }

  predicate Enabled(s: State, e: Event) {
    match e
    case Raise => s.owed > 0
    case Tick(_) => s.stage.Idle?
    case Advance => !s.stage.Idle? && !s.stage.Sending? && !s.stage.Observing?
    case Sent(_) => s.stage.Sending?
    case Observed(_) => s.stage.Observing?
    case _ => true
  }

  function Next(s: State, e: Event): State
    requires Enabled(s, e)
  {
    match e
    case CountIn(n) => s.(inp := Count(s.inp, n, InWindowIn(s.stage)), owed := s.owed + 1)
    case CountOut(n) => s.(out := Count(s.out, n, InWindowOut(s.stage)), owed := s.owed + 1)
    case CountOther => s.(owed := s.owed + 1)
    case Raise => s.(updated := true, owed := s.owed - 1)
    case Tick(observed) =>
      // A pending event is sent again before anything else.
      if s.pending then s.(pending := !observed)
      else if s.updated then s.(updated := false, stage := ReadIn, inp := Taken(s.inp), out := Taken(s.out))
      else s
    case Advance =>
      (match s.stage
       case ReadIn => s.(inp := Snap(s.inp), stage := ReadOut)
       case ReadOut =>
         var out := Snap(s.out);
         if out.snap > 0 || s.inp.snap > 0 then s.(out := out, stage := Sending)
         else s.(out := out, stage := Observing, refused := false)
       case AgainIn => s.(inp := Again(s.inp), stage := AgainOut)
       case AgainOut => s.(out := Again(s.out), stage := StoreIn)
       case StoreIn => s.(inp := Store(s.inp), stage := StoreOut)
       case StoreOut => s.(out := Store(s.out), stage := Observing)
       case _ => s)
    case Sent(success) =>
      if success then
        s.(inp := s.inp.(acked := s.inp.acked + s.inp.snap), out := s.out.(acked := s.out.acked + s.out.snap),
           stage := AgainIn, refused := false)
      else s.(stage := Observing, refused := true)
    case Observed(ok) => s.(stage := Idle, pending := !ok)
  }

  const ZERO := Channel(0, 0, 0, 0, 0, 0, 0, 0)

  const START := State(ZERO, ZERO, false, 0, Idle, false, false)

  // The state after a run; events that are not enabled cannot occur.
  ghost predicate Feasible(es: seq<Event>)
    decreases |es|, 0
  {
    es == [] || (Feasible(es[..|es| - 1]) && Enabled(After(es[..|es| - 1]), es[|es| - 1]))
  }

  ghost function After(es: seq<Event>): State
    requires Feasible(es)
    decreases |es|, 1
  {
    if es == [] then START else Next(After(es[..|es| - 1]), es[|es| - 1])
  }

  // ---------- Conservation ----------

  // What a direction owes to its history: the acknowledged amount is in the counter until the store.
  function Due(c: Channel, flight: bool): int {
    c.counted + (if flight then c.snap + c.window else 0)
  }

  ghost predicate Balanced(c: Channel, flight: bool, open: bool) {
    && c.live < WORD && (!open ==> c.window == 0)
    && (c.acked + c.live + c.late - Due(c, flight)) % WORD == 0
    && (open ==> (c.again + c.window - c.live) % WORD == 0)
  }

  ghost predicate AllBalanced(s: State) {
    && Balanced(s.inp, InFlightIn(s.stage), InWindowIn(s.stage))
    && Balanced(s.out, InFlightOut(s.stage), InWindowOut(s.stage))
  }

  lemma CountBalanced(c: Channel, n: nat, flight: bool, open: bool)
    requires Balanced(c, flight, open) && (open ==> flight)
    ensures Balanced(Count(c, n, open), flight, open)
  {
  }

  lemma StepsBalanced(c: Channel)
    ensures Balanced(c, false, false) ==> Balanced(Snap(c), false, false) && Balanced(Taken(c), false, false)
    ensures Balanced(c, false, false) ==> Balanced(c.(acked := c.acked + c.snap), true, false)
    ensures Balanced(c, true, false) ==> Balanced(Again(c), true, true)
    ensures Balanced(c, true, true) ==> Balanced(Store(c), false, false)
  {
  }

  lemma NextBalanced(s: State, e: Event)
    requires AllBalanced(s) && Enabled(s, e)
    ensures AllBalanced(Next(s, e))
  {
    hide Count, Snap, Again, Store, Taken, Balanced;
    StepsBalanced(s.inp);
    StepsBalanced(s.out);
    match e {
      case CountIn(n) => CountBalanced(s.inp, n, InFlightIn(s.stage), InWindowIn(s.stage));
      case CountOut(n) => CountBalanced(s.out, n, InFlightOut(s.stage), InWindowOut(s.stage));
      case _ =>
    }
  }

  lemma {:induction false} RunsBalance(es: seq<Event>)
    requires Feasible(es)
    ensures AllBalanced(After(es))
  {
    hide AllBalanced, Next, Enabled;
    if es == [] {
      StartBalanced();
    } else {
      RunsBalance(es[..|es| - 1]);
      NextBalanced(After(es[..|es| - 1]), es[|es| - 1]);
    }
  }

  lemma StartBalanced()
    ensures AllBalanced(START) && AllTight(START) && Remembered(START)
  {
  }

  // The same without the wrap of the counters, as long as fewer bytes were counted than a word holds.
  ghost predicate Tight(c: Channel, flight: bool, open: bool, snapped: bool) {
    c.counted < WORD ==>
      && c.acked + c.live + c.late == Due(c, flight) && (!open ==> c.window == 0) && c.window <= c.late
      && (flight ==> c.snap <= c.acked) && (snapped ==> c.snap <= c.live)
      && (open ==> c.snap <= c.again && c.again + c.window == c.live)
  }

  predicate SnappedIn(g: Stage) {
    g == ReadOut || g == Sending || g == AgainIn || InWindowIn(g)
  }

  predicate SnappedOut(g: Stage) {
    g == Sending || g == AgainIn || g == AgainOut || InWindowOut(g)
  }

  ghost predicate AllTight(s: State) {
    && Tight(s.inp, InFlightIn(s.stage), InWindowIn(s.stage), SnappedIn(s.stage))
    && Tight(s.out, InFlightOut(s.stage), InWindowOut(s.stage), SnappedOut(s.stage))
  }

  lemma CountTight(c: Channel, n: nat, flight: bool, open: bool, snapped: bool)
    requires Tight(c, flight, open, snapped) && (open ==> flight) && (flight ==> snapped)
    ensures Tight(Count(c, n, open), flight, open, snapped)
  {
  }

  lemma StepsTight(c: Channel, snapped: bool)
    ensures Tight(c, false, false, snapped) ==>
              && Tight(Snap(c), false, false, true) && Tight(Snap(c), false, false, false)
              && Tight(Taken(c), false, false, false) && Tight(c, false, false, false)
    ensures Tight(c, false, false, true) ==> Tight(c.(acked := c.acked + c.snap), true, false, true)
    ensures Tight(c, true, false, true) ==> Tight(Again(c), true, true, true)
    ensures Tight(c, true, true, true) ==> Tight(Store(c), false, false, false)
  {
  }

  lemma NextTight(s: State, e: Event)
    requires AllTight(s) && Enabled(s, e)
    ensures AllTight(Next(s, e))
  {
    hide Count, Snap, Again, Store, Taken, Tight;
    StepsTight(s.inp, SnappedIn(s.stage));
    StepsTight(s.out, SnappedOut(s.stage));
    match e {
      case CountIn(n) => CountTight(s.inp, n, InFlightIn(s.stage), InWindowIn(s.stage), SnappedIn(s.stage));
      case CountOut(n) => CountTight(s.out, n, InFlightOut(s.stage), InWindowOut(s.stage), SnappedOut(s.stage));
      case _ =>
    }
  }

  lemma {:induction false} RunsTight(es: seq<Event>)
    requires Feasible(es)
    ensures AllTight(After(es))
  {
    hide AllTight, Next, Enabled;
    if es == [] {
      StartBalanced();
    } else {
      RunsTight(es[..|es| - 1]);
      NextTight(After(es[..|es| - 1]), es[|es| - 1]);
    }
  }

  // What was counted in one direction between the second read and the store that follows it.
  ghost function LateIn(es: seq<Event>): nat
    requires Feasible(es)
  {
    if es == [] then 0
    else
      var past, e := es[..|es| - 1], es[|es| - 1];
      LateIn(past) + if e.CountIn? && InWindowIn(After(past).stage) then e.n else 0
  }

  ghost function LateOut(es: seq<Event>): nat
    requires Feasible(es)
  {
    if es == [] then 0
    else
      var past, e := es[..|es| - 1], es[|es| - 1];
      LateOut(past) + if e.CountOut? && InWindowOut(After(past).stage) then e.n else 0
  }

  lemma {:induction false} LateCounted(es: seq<Event>)
    requires Feasible(es)
    ensures After(es).inp.late == LateIn(es) && After(es).out.late == LateOut(es)
  {
    if es != [] {
      LateCounted(es[..|es| - 1]);
    }
  }

  // Whenever the observer is idle: acknowledged bytes, the counter and the bytes counted in the window add up to all
  // bytes counted, modulo a word always, and exactly as long as fewer bytes were counted than a word holds.
  // So nothing is lost exactly when no byte was counted in a window.
  lemma EveryRunConserves(es: seq<Event>)
    requires Feasible(es) && After(es).stage == Idle
    ensures var s := After(es);
      && (s.inp.acked + s.inp.live + LateIn(es) - s.inp.counted) % WORD == 0
      && (s.out.acked + s.out.live + LateOut(es) - s.out.counted) % WORD == 0
      && (s.inp.counted < WORD ==> s.inp.acked + s.inp.live + LateIn(es) == s.inp.counted)
      && (s.out.counted < WORD ==> s.out.acked + s.out.live + LateOut(es) == s.out.counted)
      && (s.inp.counted < WORD ==> (s.inp.acked + s.inp.live == s.inp.counted <==> LateIn(es) == 0))
      && (s.out.counted < WORD ==> (s.out.acked + s.out.live == s.out.counted <==> LateOut(es) == 0))
  {
    hide After, Feasible, LateIn, LateOut;
    RunsBalance(es);
    RunsTight(es);
    LateCounted(es);
  }

  lemma Extend(es: seq<Event>, e: Event)
    requires Feasible(es) && Enabled(After(es), e)
    ensures Feasible(es + [e]) && After(es + [e]) == Next(After(es), e)
  {
    assert (es + [e])[..|es|] == es;
  }

  // Three bytes counted between the second read and the store are lost.
  lemma LossHappens() returns (es: seq<Event>)
    ensures Feasible(es) && After(es).stage == Idle
    ensures After(es).inp.counted == 8 && After(es).inp.acked == 5 && After(es).inp.live == 0
  {
    hide After, Feasible;
    es := Begun();
    es := Reported(es);
    Extend(es, Advance);
    es := es + [Advance];
    Extend(es, CountIn(3));
    es := es + [CountIn(3)];
    es := Stored(es);
    Extend(es, Observed(true));
    es := es + [Observed(true)];
  }

  lemma Begun() returns (es: seq<Event>)
    ensures Feasible(es) && After(es).stage == ReadIn && After(es).inp == ZERO.(live := 5, counted := 5)
    ensures !After(es).updated && After(es).owed == 0
  {
    es := [];
    Extend(es, CountIn(5));
    es := es + [CountIn(5)];
    Extend(es, Raise);
    es := es + [Raise];
    Extend(es, Tick(true));
    es := es + [Tick(true)];
  }

  lemma Reported(es: seq<Event>) returns (fs: seq<Event>)
    requires Feasible(es) && After(es).stage == ReadIn && After(es).inp.live > 0
    ensures Feasible(fs) && After(fs).stage == AgainIn
    ensures var c, d := After(es).inp, After(fs).inp;
      d == c.(snap := c.live, acked := c.acked + c.live)
  {
    hide After, Feasible;
    Extend(es, Advance);
    fs := es + [Advance];
    Extend(fs, Advance);
    fs := fs + [Advance];
    Extend(fs, Sent(true));
    fs := fs + [Sent(true)];
  }

  lemma Stored(es: seq<Event>) returns (fs: seq<Event>)
    requires Feasible(es) && After(es).stage == AgainOut
    ensures Feasible(fs) && After(fs).stage == Observing && After(fs).inp == Store(After(es).inp)
  {
    hide After, Feasible;
    Extend(es, Advance);
    fs := es + [Advance];
    Extend(fs, Advance);
    fs := fs + [Advance];
    Extend(fs, Advance);
    fs := fs + [Advance];
  }

  // The subtractions never go below zero.
  lemma NoUnderflow(es: seq<Event>)
    requires Feasible(es)
    ensures var s := After(es);
      && (s.stage == StoreIn && s.inp.counted < WORD ==> s.inp.snap <= s.inp.again && Store(s.inp).live == s.inp.again - s.inp.snap)
      && (s.stage == StoreOut && s.out.counted < WORD ==> s.out.snap <= s.out.again && Store(s.out).live == s.out.again - s.out.snap)
  {
    hide After, Feasible;
    RunsBalance(es);
    RunsTight(es);
  }

  // ---------- No byte is forgotten unless a report was refused ----------

  predicate Small(s: State) {
    s.inp.counted < WORD && s.out.counted < WORD
  }

  // Bytes not in the last acknowledged report were counted since the flag was taken.
  predicate Recent(c: Channel, snapped: bool, open: bool) {
    && (snapped ==> c.live <= c.snap + c.news)
    && (open ==> c.again <= c.snap + c.news)
  }

  ghost predicate Raised(s: State) {
    s.inp.news + s.out.news > 0 ==> s.updated || s.owed > 0
  }

  ghost predicate Known(s: State) {
    Small(s) ==>
      && Recent(s.inp, SnappedIn(s.stage), InWindowIn(s.stage))
      && Recent(s.out, SnappedOut(s.stage), InWindowOut(s.stage))
      && (s.stage == StoreOut ==> s.inp.live <= s.inp.news)
      && (s.stage == Idle || s.stage == Observing ==>
            s.refused || (s.inp.live <= s.inp.news && s.out.live <= s.out.news))
  }

  ghost predicate Remembered(s: State) {
    Raised(s) && Known(s)
  }

  lemma CountRecent(c: Channel, n: nat, open: bool)
    ensures var d := Count(c, n, open);
      d.live <= c.live + n && d.news == c.news + n && d.counted == c.counted + n && d.snap == c.snap && d.again == c.again
  {
  }

  lemma StoreRecent(c: Channel)
    ensures var d := Store(c);
      d.news == c.news && d.counted == c.counted && d.snap == c.snap && d.again == c.again
      && (c.snap <= c.again ==> d.live <= c.again - c.snap)
  {
  }

  lemma NextRaised(s: State, e: Event)
    requires Raised(s) && Enabled(s, e)
    ensures Raised(Next(s, e))
  {
    hide InWindowIn, InWindowOut;
  }

  // The subtractions of the stores stay above zero.
  ghost predicate Above(s: State) {
    && (s.inp.counted < WORD && InWindowIn(s.stage) ==> s.inp.snap <= s.inp.again)
    && (s.out.counted < WORD && InWindowOut(s.stage) ==> s.out.snap <= s.out.again)
  }

  lemma TightAbove(s: State)
    requires AllTight(s)
    ensures Above(s)
  {
  }

  lemma CountInKnown(s: State, n: nat)
    requires Known(s)
    ensures Known(Next(s, CountIn(n)))
  {
    hide Count;
    CountRecent(s.inp, n, InWindowIn(s.stage));
  }

  lemma CountOutKnown(s: State, n: nat)
    requires Known(s)
    ensures Known(Next(s, CountOut(n)))
  {
    hide Count;
    CountRecent(s.out, n, InWindowOut(s.stage));
  }

  lemma ReadKnown(s: State)
    requires Known(s) && Enabled(s, Advance) && s.stage != StoreIn && s.stage != StoreOut
    ensures Known(Next(s, Advance))
  {
    hide Store;
  }

  lemma StoreKnown(s: State)
    requires Known(s) && Above(s) && (s.stage == StoreIn || s.stage == StoreOut)
    ensures Known(Next(s, Advance))
  {
    hide Store, Snap, Again;
    StoreRecent(s.inp);
    StoreRecent(s.out);
  }

  lemma AdvanceKnown(s: State)
    requires Known(s) && Above(s) && Enabled(s, Advance)
    ensures Known(Next(s, Advance))
  {
    hide Known, Above, Next;
    if s.stage == StoreIn || s.stage == StoreOut {
      StoreKnown(s);
    } else {
      ReadKnown(s);
    }
  }

  lemma NextKnown(s: State, e: Event)
    requires Known(s) && Above(s) && Enabled(s, e)
    ensures Known(Next(s, e))
  {
    hide Count, Store, Snap, Again, Above;
    match e {
      case CountIn(n) => CountInKnown(s, n);
      case CountOut(n) => CountOutKnown(s, n);
      case Advance => AdvanceKnown(s);
      case _ =>
    }
  }

  lemma {:induction false} RunsRemember(es: seq<Event>)
    requires Feasible(es)
    ensures Remembered(After(es))
  {
    hide AllTight, Raised, Known, Above, Next, Enabled;
    if es == [] {
      StartBalanced();
    } else {
      RunsRemember(es[..|es| - 1]);
      RunsTight(es[..|es| - 1]);
      TightAbove(After(es[..|es| - 1]));
      NextRaised(After(es[..|es| - 1]), es[|es| - 1]);
      NextKnown(After(es[..|es| - 1]), es[|es| - 1]);
    }
  }

  // Whenever the observer is idle and bytes wait in a counter, the flag is up or about to be raised,
  // or the last report was refused.
  lemma NothingForgotten(es: seq<Event>)
    requires Feasible(es)
    ensures var s := After(es);
      s.stage == Idle && Small(s) && s.inp.live + s.out.live > 0 ==> s.updated || s.owed > 0 || s.refused
  {
    hide After, Feasible;
    RunsRemember(es);
  }

  // ---------- Pending events ----------

  // The last answer of the observer service to a report was a refusal, and so was every answer on a tick since.
  ghost predicate Unheard(es: seq<Event>) {
    exists i :: RefusedSince(es, i)
  }

  ghost predicate RefusedSince(es: seq<Event>, i: int) {
    && 0 <= i < |es| && es[i] == Observed(false)
    && forall j :: i < j < |es| ==> !es[j].Observed? && es[j] != Tick(true)
  }

  // An event is pending exactly while the observer service has refused it every time.
  lemma {:induction false} PendingIffRefused(es: seq<Event>)
    requires Feasible(es)
    ensures After(es).pending <==> Unheard(es)
    ensures After(es).pending ==> After(es).stage == Idle
  {
    if es != [] {
      var past, e := es[..|es| - 1], es[|es| - 1];
      PendingIffRefused(past);
      if e == Observed(false) {
        assert RefusedSince(es, |es| - 1);
      } else {
        forall i ensures RefusedSince(es, i) <==> RefusedSince(past, i) && !e.Observed? && e != Tick(true) {
          RefusedNext(es, i);
        }
      }
    }
  }

  lemma {:induction false} RefusedNext(es: seq<Event>, i: int)
    requires es != [] && es[|es| - 1] != Observed(false)
    ensures var e := es[|es| - 1];
      RefusedSince(es, i) <==> RefusedSince(es[..|es| - 1], i) && !e.Observed? && e != Tick(true)
  {
    var past, e := es[..|es| - 1], es[|es| - 1];
    if RefusedSince(es, i) {
      assert forall j :: i < j < |past| ==> past[j] == es[j];
    }
    if RefusedSince(past, i) && !e.Observed? && e != Tick(true) {
      assert forall j :: i < j < |past| ==> past[j] == es[j];
    }
  }

  // While an event is pending, ticks resend it and do nothing else: no report is begun and the flag stays.
  lemma {:induction false} PendingGoesFirst(es: seq<Event>, answer: bool)
    requires Feasible(es) && Unheard(es)
    ensures Feasible(es + [Tick(answer)])
    ensures After(es + [Tick(answer)]) == After(es).(pending := !answer)
    ensures Unheard(es + [Tick(answer)]) <==> !answer
  {
    hide Unheard;
    PendingIffRefused(es);
    Extend(es, Tick(answer));
    PendingIffRefused(es + [Tick(answer)]);
  }

  // ---------- The course of a report ----------

  // What the observer itself did since it last took the flag.
  ghost function Course(es: seq<Event>): seq<Event>
    requires Feasible(es)
  {
    if es == [] then []
    else
      var past, e := es[..|es| - 1], es[|es| - 1];
      if Takes(After(past), e) then []
      else if e.Advance? || e.Sent? || e.Observed? then Course(past) + [e]
      else Course(past)
  }

  // The ways a report may go: nothing to send, not acknowledged, acknowledged and then read again and stored.
  const EMPTY := [Advance, Advance]
  const REFUSED := [Advance, Advance, Sent(false)]
  const ACCEPTED := [Advance, Advance, Sent(true), Advance, Advance, Advance, Advance]

  // How far it went for each stage; the observer service is always told at the end.
  ghost predicate Runs(course: seq<Event>, stage: Stage) {
    match stage
    case Idle => course == [] || exists ok :: Ends(course, ok)
    case ReadIn => course == []
    case ReadOut => course == EMPTY[..1]
    case Sending => course == EMPTY
    case AgainIn => course == ACCEPTED[..3]
    case AgainOut => course == ACCEPTED[..4]
    case StoreIn => course == ACCEPTED[..5]
    case StoreOut => course == ACCEPTED[..6]
    case Observing => course == EMPTY || course == REFUSED || course == ACCEPTED
  }

  // The answer of the observer service ends the report.
  ghost predicate Ends(course: seq<Event>, ok: bool) {
    course == EMPTY + [Observed(ok)] || course == REFUSED + [Observed(ok)] || course == ACCEPTED + [Observed(ok)]
  }

  // Once a report was offered to the server or skipped: it is skipped exactly when both amounts are zero, and it counts
  // as refused exactly when the server did not acknowledge it.
  ghost predicate Answered(s: State, course: seq<Event>)
    requires Runs(course, s.stage)
  {
    && (s.stage == Sending || InFlightOut(s.stage) ==> s.inp.snap + s.out.snap > 0)
    && (InFlightOut(s.stage) ==> !s.refused)
    && (s.stage == Observing ==> (course == EMPTY <==> s.inp.snap + s.out.snap == 0))
    && (s.stage == Idle && course != [] ==> (!course[2].Sent? <==> s.inp.snap + s.out.snap == 0))
    && (s.stage == Observing ==> (s.refused <==> course == REFUSED))
    && (s.stage == Idle && course != [] ==> (s.refused <==> course[2] == Sent(false)))
    && (s.stage == Idle && course == [] ==> !s.refused)
  }

  lemma {:induction false} CourseStarts()
    ensures Runs([], START.stage) && Answered(START, [])
  {
  }

  lemma {:induction false} CourseNext(s: State, e: Event, course: seq<Event>)
    requires Enabled(s, e) && (e.Advance? || e.Sent? || e.Observed?)
    requires Runs(course, s.stage) && Answered(s, course)
    ensures Runs(course + [e], Next(s, e).stage) && Answered(Next(s, e), course + [e])
  {
    if e.Observed? {
      assert Ends(course + [e], e.ok);
    }
  }

  lemma {:induction false} CourseStays(s: State, e: Event, course: seq<Event>)
    requires Enabled(s, e) && !e.Advance? && !e.Sent? && !e.Observed?
    requires Runs(course, s.stage) && Answered(s, course)
    ensures var next := if Takes(s, e) then [] else course;
      Runs(next, Next(s, e).stage) && Answered(Next(s, e), next)
  {
  }

  // Every report takes one of the three ways, and the events and the refusal recorded are those of the way it took.
  lemma {:induction false} EveryReportRuns(es: seq<Event>)
    requires Feasible(es)
    ensures Runs(Course(es), After(es).stage) && Answered(After(es), Course(es))
  {
    hide Count, Again, Store, Taken, Runs, Answered, Enabled, Next, Ends;
    if es != [] {
      var past, e := es[..|es| - 1], es[|es| - 1];
      EveryReportRuns(past);
      if !Takes(After(past), e) && (e.Advance? || e.Sent? || e.Observed?) {
        CourseNext(After(past), e, Course(past));
      } else {
        CourseStays(After(past), e, Course(past));
      }
    } else {
      CourseStarts();
    }
  }

  // Whatever the run so far, handlers may count and the observer may go on, with any answer.
  lemma {:induction false} RunsGoOn(es: seq<Event>, n: nat, answer: bool)
    requires Feasible(es)
    ensures Feasible(es + [CountIn(n)]) && Feasible(es + [CountOut(n)]) && Feasible(es + [CountOther])
    ensures After(es).owed > 0 <==> Feasible(es + [Raise])
    ensures Feasible(es + [Tick(answer)]) || Feasible(es + [Advance]) || Feasible(es + [Sent(answer)])
      || Feasible(es + [Observed(answer)])
  {
    assert forall e :: (es + [e])[..|es|] == es;
  }

  // ---------- Exactly when waiting bytes are stuck ----------

  // However many ticks come, and whatever the observer service answers, no report is begun.
  predicate IdlesThrough(s: State, answers: seq<bool>)
    decreases |answers|
  {
    s.stage == Idle && (answers == [] || IdlesThrough(Next(s, Tick(answers[0])), answers[1..]))
  }

  ghost predicate Sleeps(s: State) {
    forall answers :: IdlesThrough(s, answers)
  }

  lemma {:induction false} FlagDownIdles(s: State, answers: seq<bool>)
    requires s.stage == Idle && !s.updated
    ensures IdlesThrough(s, answers)
    ensures forall b :: Next(s, Tick(b)) == s.(pending := s.pending && !b)
    decreases |answers|
  {
    if answers != [] {
      FlagDownIdles(Next(s, Tick(answers[0])), answers[1..]);
    }
  }

  lemma FlagUpWakes(s: State)
    requires s.stage == Idle && s.updated
    ensures !IdlesThrough(s, [true, true])
  {
    var n := Next(s, Tick(true));
    assert [true, true][1..] == [true] && [true][1..] == [];
    if s.pending {
      assert !IdlesThrough(Next(n, Tick(true)), []);
    }
    assert IdlesThrough(s, [true, true]) == IdlesThrough(n, [true]);
  }

  // A tick takes the flag when nothing is pending.
  predicate Takes(s: State, e: Event) {
    e.Tick? && s.stage == Idle && !s.pending && s.updated
  }

  predicate Counts(e: Event) {
    e.CountIn? || e.CountOut? || e.CountOther?
  }

  // The counts that still owed the flag when it was last taken.
  ghost function OwedAtTake(es: seq<Event>): nat
    requires Feasible(es)
  {
    if es == [] then 0
    else
      var past, e := es[..|es| - 1], es[|es| - 1];
      if Takes(After(past), e) then After(past).owed else OwedAtTake(past)
  }

  // The counts since it was last taken.
  ghost function CountsSince(es: seq<Event>): nat
    requires Feasible(es)
  {
    if es == [] then 0
    else
      var past, e := es[..|es| - 1], es[|es| - 1];
      if Takes(After(past), e) then 0 else CountsSince(past) + if Counts(e) then 1 else 0
  }

  // Since the flag was taken, it was raised exactly for the counts that no longer owe it.
  lemma {:induction false} FlagRaised(es: seq<Event>)
    requires Feasible(es)
    ensures var s := After(es);
      s.owed <= OwedAtTake(es) + CountsSince(es) && (s.updated <==> s.owed < OwedAtTake(es) + CountsSince(es))
  {
    if es != [] {
      var past, e := es[..|es| - 1], es[|es| - 1];
      FlagRaised(past);
      FlagMoves(After(past), e);
    }
  }

  // How a step moves the flag and the counts that owe it.
  lemma FlagMoves(s: State, e: Event)
    requires Enabled(s, e)
    ensures var n := Next(s, e);
      && n.owed == s.owed + (if Counts(e) then 1 else 0) - (if e.Raise? then 1 else 0)
      && (n.updated <==> e.Raise? || (s.updated && !Takes(s, e)))
  {
  }

  // When the observer is idle and no count owes the flag, ticks send nothing, ever, if and only if nothing was counted
  // since the flag was taken, nor owed it then. When bytes wait in a counter, it is besides the case that the last
  // report was refused: bytes are stuck after a refused report until something is counted.
  lemma StuckIff(es: seq<Event>)
    requires Feasible(es) && After(es).stage == Idle && After(es).owed == 0
    ensures Sleeps(After(es)) <==> CountsSince(es) == 0 && OwedAtTake(es) == 0
    ensures var s := After(es);
      Small(s) && s.inp.live + s.out.live > 0 ==>
        (Sleeps(s) <==> s.refused && CountsSince(es) == 0 && OwedAtTake(es) == 0)
  {
    hide After, Feasible, CountsSince, OwedAtTake, IdlesThrough, Small;
    var s := After(es);
    FlagRaised(es);
    NothingForgotten(es);
    if s.updated {
      FlagUpWakes(s);
    } else {
      forall answers ensures IdlesThrough(s, answers) {
        FlagDownIdles(s, answers);
      }
    }
  }

  // Bytes do get stuck: five are counted, reported once, and refused.
  lemma StuckHappens() returns (es: seq<Event>)
    ensures Feasible(es) && Sleeps(After(es))
    ensures After(es).stage == Idle && After(es).refused && After(es).inp.live == 5 && After(es).owed == 0
  {
    hide After, Feasible, IdlesThrough;
    es := Begun();
    es := Offered(es);
    Extend(es, Sent(false));
    es := es + [Sent(false)];
    Extend(es, Observed(true));
    es := es + [Observed(true)];
    forall answers ensures IdlesThrough(After(es), answers) {
      FlagDownIdles(After(es), answers);
    }
  }

  lemma Offered(es: seq<Event>) returns (fs: seq<Event>)
    requires Feasible(es) && After(es).stage == ReadIn && After(es).inp.live > 0
    ensures Feasible(fs) && After(fs).stage == Sending && After(fs).inp.live == After(es).inp.live
    ensures After(fs).updated == After(es).updated && After(fs).owed == After(es).owed
  {
    hide After, Feasible;
    Extend(es, Advance);
    fs := es + [Advance];
    Extend(fs, Advance);
    fs := fs + [Advance];
  }
}
