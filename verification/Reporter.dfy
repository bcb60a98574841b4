// The connection of the reporter and its lock: any number of run, receive and stop threads, interleaved step by step.

module Reporters {
  import opened Common

  // Who sends: the run loop its system information, or a receiver its response.
  datatype Sender = Pinger | Responder

  // Where a thread is. A step under the lock is named for what it is about to do.
  datatype Pc =
    | RunHead | RunPeek | RunFree(need: bool) | RunTest
    | ConnectLock | ConnectTest | ConnectBegin | ConnectDial | ConnectRecheck(c: nat) | ConnectSpare(c: nat)
    | ConnectStore(c: nat) | ConnectFlag | ConnectHook | ConnectEnd(ok: bool) | ConnectUnlock(ok: bool)
    | HandleWait | HandlePeek | HandleFree(up: bool)
    | SendLock(who: Sender) | SendTest(who: Sender) | SendWrite(who: Sender) | SendBreak(who: Sender)
    | SendUnlock(who: Sender, ok: bool)
    | CloseLock | CloseTest | CloseConn | CloseNil | CloseFlag | CloseUnlock
    | ReceiveHead | ReceivePeek | ReceiveFree(conn: Option<nat>, up: bool) | ReceiveRead
    | BreakLock | BreakFlag | BreakUnlock
    | HookLock | HookFlag | HookUnlock
    | StopTest | StopClose
    | Finished

  // The fields the threads share. Connections are numbered as they are made.
  datatype Fields = Fields(conn: Option<nat>, connected: bool, connecting: bool, made: nat)

  datatype State = State(fields: Fields, owner: Option<nat>, threads: map<nat, Pc>)

  // What the world decides in a step: whether the agent was stopped, a call succeeded, a peer closed.
  datatype Luck = Luck(stopped: bool, ok: bool, closed: bool, reply: bool)

  predicate Locks(pc: Pc) {
    pc.RunPeek? || pc.ConnectTest? || pc.ConnectBegin? || pc.ConnectDial? || pc.ConnectRecheck? || pc.ConnectSpare?
    || pc.ConnectStore? || pc.ConnectFlag? || pc.ConnectHook? || pc.ConnectEnd? || pc.ConnectUnlock?
    || pc.HandlePeek? || pc.SendTest? || pc.SendWrite? || pc.SendBreak? || pc.SendUnlock?
    || pc.CloseTest? || pc.CloseConn? || pc.CloseNil? || pc.CloseFlag? || pc.CloseUnlock?
    || pc.ReceivePeek? || pc.BreakFlag? || pc.BreakUnlock? || pc.HookFlag? || pc.HookUnlock?
  }

  // What a step does to the lock.
  datatype LockUse = Keep | Take | Free

  datatype Effect = Effect(pc: Pc, fields: Fields, lock: LockUse)

  function Go(f: Fields, pc: Pc): Effect {
    Effect(pc, f, Keep)
  }

  function Connect(pc: Pc, f: Fields, luck: Luck): Effect {
    match pc
    case ConnectLock => Effect(ConnectTest, f, Take)
    case ConnectTest => Go(f, if f.connecting || f.connected then ConnectUnlock(true) else ConnectBegin)
    case ConnectBegin => Go(f.(connecting := true), ConnectDial)
    case ConnectDial =>
      if luck.ok then Go(f.(made := f.made + 1), ConnectRecheck(f.made)) else Go(f, ConnectEnd(false))
    case ConnectRecheck(c) => Go(f, if f.conn.Some? && f.connected then ConnectSpare(c) else ConnectStore(c))
    case ConnectSpare(c) => Go(f, ConnectEnd(true))
    case ConnectStore(c) => Go(f.(conn := Some(c)), ConnectFlag)
    case ConnectFlag => Go(f.(connected := true), ConnectHook)
    case ConnectHook => Go(f, ConnectEnd(true))
    case ConnectEnd(ok) => Go(f.(connecting := false), ConnectUnlock(ok))
    case ConnectUnlock(ok) => Effect(if ok then RunTest else RunHead, f, Free)
    case _ => Go(f, pc)
  }

  function SendOrClose(pc: Pc, f: Fields, luck: Luck): Effect {
    match pc
    case SendLock(who) => Effect(SendTest(who), f, Take)
    case SendTest(who) =>
      Go(f, if f.conn.None? || !f.connected || !luck.ok then SendUnlock(who, false) else SendWrite(who))
    case SendWrite(who) => Go(f, if luck.ok then SendUnlock(who, true) else SendBreak(who))
    case SendBreak(who) => Go(f.(connected := false), SendUnlock(who, false))
    case SendUnlock(who, ok) =>
      Effect(if who.Responder? then ReceiveHead else if ok then HandleWait else CloseLock, f, Free)
    case CloseLock => Effect(CloseTest, f, Take)
    case CloseTest => Go(f, if f.conn.Some? then CloseConn else CloseFlag)
    case CloseConn => Go(f, CloseNil)
    case CloseNil => Go(f.(conn := None), CloseFlag)
    case CloseFlag => Go(f.(connected := false), CloseUnlock)
    case CloseUnlock => Effect(RunHead, f, Free)
    case _ => Go(f, pc)
  }

  function LoopOrReceive(pc: Pc, f: Fields, luck: Luck): Effect {
    match pc
    case RunHead => if luck.stopped then Go(f, Finished) else Effect(RunPeek, f, Take)
    case RunPeek => Effect(RunFree(!f.connected && !f.connecting), f, Free)
    case RunFree(need) => Go(f, if need then ConnectLock else RunTest)
    case RunTest => Go(f, if f.connected then HandleWait else RunHead)
    case HandleWait => if luck.stopped then Go(f, CloseLock) else Effect(HandlePeek, f, Take)
    case HandlePeek => Effect(HandleFree(f.connected), f, Free)
    case HandleFree(up) => Go(f, if up then SendLock(Pinger) else CloseLock)
    case ReceiveHead => if luck.stopped then Go(f, Finished) else Effect(ReceivePeek, f, Take)
    case ReceivePeek => Effect(ReceiveFree(f.conn, f.connected), f, Free)
    case ReceiveFree(c, up) => Go(f, if c.None? || !up then Finished else ReceiveRead)
    case ReceiveRead =>
      Go(f, if luck.closed then HookLock else if !luck.ok then BreakLock
            else if luck.reply then SendLock(Responder) else ReceiveHead)
    case BreakLock => Effect(BreakFlag, f, Take)
    case BreakFlag => Go(f.(connected := false), BreakUnlock)
    case BreakUnlock => Effect(Finished, f, Free)
    case HookLock => Effect(HookFlag, f, Take)
    case HookFlag => Go(f.(connected := false), HookUnlock)
    case HookUnlock => Effect(BreakLock, f, Free)
    case StopTest => Go(f, if f.conn.Some? then StopClose else Finished)
    case StopClose => Go(f, Finished)
    case _ => Go(f, pc)
  }

  predicate InConnect(pc: Pc) {
    Connecting(pc) || pc.ConnectLock? || pc.ConnectTest? || pc.ConnectBegin? || pc.ConnectUnlock?
  }

  predicate InSendOrClose(pc: Pc) {
    pc.SendLock? || pc.SendTest? || pc.SendWrite? || pc.SendBreak? || pc.SendUnlock?
    || pc.CloseLock? || pc.CloseTest? || pc.CloseConn? || pc.CloseNil? || pc.CloseFlag? || pc.CloseUnlock?
  }

  function Act(pc: Pc, f: Fields, luck: Luck): Effect {
    if InConnect(pc) then Connect(pc, f, luck)
    else if InSendOrClose(pc) then SendOrClose(pc, f, luck)
    else LoopOrReceive(pc, f, luck)
  }

  // A step that takes the lock waits until it is free.
  predicate Enabled(s: State, t: nat, luck: Luck) {
    && t in s.threads && s.threads[t] != Finished
    && (Act(s.threads[t], s.fields, luck).lock.Take? ==> s.owner.None?)
  }

  function Next(s: State, t: nat, luck: Luck): State
    requires Enabled(s, t, luck)
  {
    var e := Act(s.threads[t], s.fields, luck);
    State(e.fields, if e.lock.Take? then Some(t) else if e.lock.Free? then None else s.owner, s.threads[t := e.pc])
  }

  // Run loops, receivers and stops may start at any time, in any number.
  datatype Event = Start(t: nat, pc: Pc) | Move(t: nat, luck: Luck)

  predicate Possible(s: State, e: Event) {
    match e
    case Start(t, pc) => t !in s.threads && (pc == RunHead || pc == ReceiveHead || pc == StopTest)
    case Move(t, luck) => Enabled(s, t, luck)
  }

  function After(s: State, e: Event): State
    requires Possible(s, e)
  {
    match e
    case Start(t, pc) => s.(threads := s.threads[t := pc])
    case Move(t, luck) => Next(s, t, luck)
  }

  const INITIAL := State(Fields(None, false, false, 0), None, map[])

  ghost predicate Run(states: seq<State>, es: seq<Event>) {
    && |states| == |es| + 1 && states[0] == INITIAL
    && forall i :: 0 <= i < |es| ==> Possible(states[i], es[i]) && states[i + 1] == After(states[i], es[i])
  }

  // ---------- The invariant ----------

  predicate Connecting(pc: Pc) {
    pc.ConnectDial? || pc.ConnectRecheck? || pc.ConnectSpare? || pc.ConnectStore? || pc.ConnectFlag? || pc.ConnectHook?
    || pc.ConnectEnd?
  }

  // Steps that use the connection.
  predicate Uses(pc: Pc) {
    pc.ConnectHook? || pc.SendWrite? || pc.CloseConn?
  }

  // What holds where the owner of the lock is.
  predicate Local(f: Fields, pc: Pc) {
    && Locks(pc) && !pc.ConnectSpare?
    && (f.connecting <==> Connecting(pc))
    && (f.connected && !pc.CloseFlag? ==> f.conn.Some?)
    && (pc.ConnectBegin? || pc.ConnectDial? || pc.ConnectRecheck? || pc.ConnectStore? || pc.ConnectFlag? ==> !f.connected)
    && (pc.SendWrite? ==> f.connected)
    && (Uses(pc) || pc.ConnectFlag? || pc.CloseNil? ==> f.conn.Some?)
  }

  // What holds when nobody owns it.
  predicate Quiet(f: Fields) {
    !f.connecting && (f.connected ==> f.conn.Some?)
  }

  ghost predicate Inv(s: State) {
    && (forall t :: t in s.threads && Locks(s.threads[t]) ==> s.owner == Some(t))
    && match s.owner
      case None => Quiet(s.fields)
      case Some(t) => t in s.threads && Local(s.fields, s.threads[t])
  }

  // A step under the lock either stays under it or frees it and leaves things quiet.
  ghost predicate Leaves(e: Effect) {
    if Locks(e.pc) then e.lock.Keep? && Local(e.fields, e.pc) else e.lock.Free? && Quiet(e.fields)
  }

  // A step without the lock changes nothing that is shared, but it may take the lock.
  ghost predicate Enters(f: Fields, e: Effect) {
    e.fields == f && if Locks(e.pc) then e.lock.Take? && (Quiet(f) ==> Local(f, e.pc)) else e.lock.Keep?
  }

  lemma ConnectSteps(pc: Pc, f: Fields, luck: Luck)
    requires InConnect(pc)
    ensures if Locks(pc) then Local(f, pc) ==> Leaves(Act(pc, f, luck)) else Enters(f, Act(pc, f, luck))
  {
    hide SendOrClose, LoopOrReceive, InSendOrClose;
  }

  predicate InSend(pc: Pc) {
    pc.SendLock? || pc.SendTest? || pc.SendWrite? || pc.SendBreak? || pc.SendUnlock?
  }

  predicate InLoop(pc: Pc) {
    pc.RunHead? || pc.RunPeek? || pc.RunFree? || pc.RunTest? || pc.HandleWait? || pc.HandlePeek? || pc.HandleFree?
  }

  lemma SendSteps(pc: Pc, f: Fields, luck: Luck)
    requires InSend(pc)
    ensures if Locks(pc) then Local(f, pc) ==> Leaves(Act(pc, f, luck)) else Enters(f, Act(pc, f, luck))
  {
    hide Connect, LoopOrReceive;
  }

  lemma CloseSteps(pc: Pc, f: Fields, luck: Luck)
    requires InSendOrClose(pc) && !InSend(pc)
    ensures if Locks(pc) then Local(f, pc) ==> Leaves(Act(pc, f, luck)) else Enters(f, Act(pc, f, luck))
  {
    hide Connect, LoopOrReceive;
  }

  lemma LoopSteps(pc: Pc, f: Fields, luck: Luck)
    requires InLoop(pc)
    ensures if Locks(pc) then Local(f, pc) ==> Leaves(Act(pc, f, luck)) else Enters(f, Act(pc, f, luck))
  {
    hide Connect, SendOrClose;
  }

  lemma ReceiveSteps(pc: Pc, f: Fields, luck: Luck)
    requires !InConnect(pc) && !InSendOrClose(pc) && !InLoop(pc)
    ensures if Locks(pc) then Local(f, pc) ==> Leaves(Act(pc, f, luck)) else Enters(f, Act(pc, f, luck))
  {
    hide Connect, SendOrClose;
  }

  lemma AllSteps(pc: Pc, f: Fields, luck: Luck)
    ensures if Locks(pc) then Local(f, pc) ==> Leaves(Act(pc, f, luck)) else Enters(f, Act(pc, f, luck))
  {
    hide Act, Leaves, Enters, Local, Locks, InConnect, InSendOrClose, InSend, InLoop;
    if InConnect(pc) {
      ConnectSteps(pc, f, luck);
    } else if InSendOrClose(pc) {
      if InSend(pc) {
        SendSteps(pc, f, luck);
      } else {
        CloseSteps(pc, f, luck);
      }
    } else if InLoop(pc) {
      LoopSteps(pc, f, luck);
    } else {
      ReceiveSteps(pc, f, luck);
    }
  }

  lemma OwnersLock(f: Fields, pc: Pc)
    requires Local(f, pc)
    ensures Locks(pc)
  {
  }

  lemma NextKeeps(s: State, t: nat, luck: Luck)
    requires Inv(s) && Enabled(s, t, luck)
    ensures Inv(Next(s, t, luck))
  {
    hide Act, Local, Locks, Quiet;
    AllSteps(s.threads[t], s.fields, luck);
    if s.owner.Some? {
      OwnersLock(s.fields, s.threads[s.owner.value]);
    }
  }

  lemma AfterKeeps(s: State, e: Event)
    requires Inv(s) && Possible(s, e)
    ensures Inv(After(s, e))
  {
    hide Local, Next;
    if e.Move? {
      NextKeeps(s, e.t, e.luck);
    }
  }

  lemma {:induction false} RunsKeep(states: seq<State>, es: seq<Event>, i: nat)
    requires Run(states, es) && i <= |es|
    ensures Inv(states[i])
  {
    hide Inv, After, Possible;
    if i == 0 {
      Initially();
    } else {
      RunsKeep(states, es, i - 1);
      AfterKeeps(states[i - 1], es[i - 1]);
    }
  }

  lemma Initially()
    ensures Inv(INITIAL)
  {
  }

  // In every interleaving: a free lock finds connected only with a connection, and never connecting; at most one
  // thread is under the lock; a connection made by dialling is never found to be one too many; and every step
  // under the lock that uses the connection finds one. Connecting is what some thread does, nobody dials while
  // connected, and nobody writes unless connected.
  lemma EveryInterleaving(states: seq<State>, es: seq<Event>, i: nat)
    requires Run(states, es) && i <= |es|
    ensures var s := states[i];
      && (s.owner.None? ==> !s.fields.connecting && (s.fields.connected ==> s.fields.conn.Some?))
      && (forall t, u :: t in s.threads && u in s.threads && Locks(s.threads[t]) && Locks(s.threads[u]) ==> t == u)
      && (forall t :: t in s.threads ==> !s.threads[t].ConnectSpare?)
      && (forall t :: t in s.threads && Uses(s.threads[t]) ==> s.fields.conn.Some?)
      && (s.fields.connecting <==> exists t :: t in s.threads && Connecting(s.threads[t]))
      && (forall t :: t in s.threads && s.threads[t].ConnectDial? ==> !s.fields.connected)
      && (forall t :: t in s.threads && s.threads[t].SendWrite? ==> s.fields.connected)
  {
    hide Run;
    RunsKeep(states, es, i);
    assert forall pc :: Connecting(pc) ==> Locks(pc);
  }

  // ---------- Who moves the connected flag ----------

  predicate At(states: seq<State>, es: seq<Event>, k: nat) {
    k < |es| && k < |states| && es[k].Move? && es[k].t in states[k].threads
  }

  // Step k marks the reporter connected, or not connected: after a failed write, a failed read, a close of the
  // peer, or when the run loop closes the connection.
  predicate Raises(states: seq<State>, es: seq<Event>, k: nat) {
    At(states, es, k) && states[k].threads[es[k].t].ConnectFlag?
  }

  predicate Lowering(pc: Pc) {
    pc.SendBreak? || pc.CloseFlag? || pc.BreakFlag? || pc.HookFlag?
  }

  predicate Lowers(states: seq<State>, es: seq<Event>, k: nat) {
    At(states, es, k) && Lowering(states[k].threads[es[k].t])
  }

  ghost predicate RaisedAt(states: seq<State>, es: seq<Event>, k: nat, i: nat) {
    k < i && Raises(states, es, k) && forall l: nat :: k < l < i ==> !Lowers(states, es, l)
  }

  lemma ConnectFlags(pc: Pc, f: Fields, luck: Luck)
    ensures Connect(pc, f, luck).fields.connected == (if pc.ConnectFlag? then true else f.connected)
  {
  }

  lemma SendOrCloseFlags(pc: Pc, f: Fields, luck: Luck)
    ensures SendOrClose(pc, f, luck).fields.connected == (if pc.SendBreak? || pc.CloseFlag? then false else f.connected)
  {
  }

  lemma LoopOrReceiveFlags(pc: Pc, f: Fields, luck: Luck)
    ensures LoopOrReceive(pc, f, luck).fields.connected == (if pc.BreakFlag? || pc.HookFlag? then false else f.connected)
  {
    hide Connect, SendOrClose;
  }

  lemma ActFlags(pc: Pc, f: Fields, luck: Luck)
    ensures Act(pc, f, luck).fields.connected
            == if pc.ConnectFlag? then true else if Lowering(pc) then false else f.connected
  {
    hide Connect, SendOrClose, LoopOrReceive;
    ConnectFlags(pc, f, luck);
    SendOrCloseFlags(pc, f, luck);
    LoopOrReceiveFlags(pc, f, luck);
  }

  lemma StepFlags(states: seq<State>, es: seq<Event>, k: nat)
    requires Run(states, es) && k < |es|
    ensures |states| == |es| + 1
    ensures states[k + 1].fields.connected
            == if Raises(states, es, k) then true else if Lowers(states, es, k) then false else states[k].fields.connected
    ensures !(Raises(states, es, k) && Lowers(states, es, k))
  {
    hide Run, Act, Lowering;
    RunStep(states, es, k);
    OneOrTheOther();
    if es[k].Move? {
      ActFlags(states[k].threads[es[k].t], states[k].fields, es[k].luck);
    }
  }

  lemma OneOrTheOther()
    ensures forall pc: Pc :: pc.ConnectFlag? ==> !Lowering(pc)
  {
  }

  // The reporter counts as connected exactly when a connect has marked it so and nothing has marked it otherwise since.
  lemma {:induction false} ConnectedIffRaised(states: seq<State>, es: seq<Event>, i: nat)
    requires Run(states, es) && i <= |es|
    ensures states[i].fields.connected <==> exists k: nat :: RaisedAt(states, es, k, i)
  {
    hide Raises, Lowers;
    if i > 0 {
      var l := i - 1;
      ConnectedIffRaised(states, es, l);
      StepFlags(states, es, l);
      if Raises(states, es, l) {
        assert RaisedAt(states, es, l, i);
      } else {
        forall k: nat ensures RaisedAt(states, es, k, i) <==> RaisedAt(states, es, k, l) && !Lowers(states, es, l) {
          RaisedEarlier(states, es, k, i);
        }
      }
    }
  }

  lemma RaisedEarlier(states: seq<State>, es: seq<Event>, k: nat, i: nat)
    requires 0 < i && !Raises(states, es, i - 1)
    ensures RaisedAt(states, es, k, i) <==> RaisedAt(states, es, k, i - 1) && !Lowers(states, es, i - 1)
  {
    hide Raises, Lowers;
  }

  // ---------- Stopping is not under the lock ----------

  const LUCKY := Luck(false, true, false, false)
  const STOPPED := Luck(true, true, false, false)

  ghost predicate Reachable(s: State) {
    exists states, es :: Run(states, es) && states[|es|] == s
  }

  lemma ReachNext(s: State, e: Event)
    requires Reachable(s) && Possible(s, e)
    ensures Reachable(After(s, e))
  {
    hide After, Possible;
    var states, es :| Run(states, es) && states[|es|] == s;
    assert Run(states + [After(s, e)], es + [e]);
  }

  // A thread makes a step from one place to the next.
  lemma Step(s: State, t: nat, luck: Luck) returns (n: State)
    requires Reachable(s) && Enabled(s, t, luck)
    ensures Reachable(n) && n == Next(s, t, luck)
  {
    ReachNext(s, Move(t, luck));
    n := Next(s, t, luck);
  }

  lemma ReachStart()
    ensures Reachable(INITIAL)
  {
    assert Run([INITIAL], []);
  }

  lemma Started() returns (s: State)
    ensures Reachable(s) && s == State(Fields(None, false, false, 0), Some(0), map[0 := RunPeek])
  {
    hide Reachable;
    ReachStart();
    ReachNext(INITIAL, Start(0, RunHead));
    s := After(INITIAL, Start(0, RunHead));
    s := Step(s, 0, LUCKY);
  }

  lemma Wanting() returns (s: State)
    ensures Reachable(s) && s == State(Fields(None, false, false, 0), None, map[0 := ConnectLock])
  {
    hide Reachable;
    s := Started();
    s := Step(s, 0, LUCKY);
    s := Step(s, 0, LUCKY);
  }

  lemma Dialled() returns (s: State)
    ensures Reachable(s) && s == State(Fields(None, false, true, 0), Some(0), map[0 := ConnectDial])
  {
    hide Reachable;
    s := Wanting();
    s := Step(s, 0, LUCKY);
    s := Step(s, 0, LUCKY);
    s := Step(s, 0, LUCKY);
  }

  lemma Stored() returns (s: State)
    ensures Reachable(s) && s == State(Fields(Some(0), false, true, 1), Some(0), map[0 := ConnectFlag])
  {
    hide Reachable;
    s := Dialled();
    s := Step(s, 0, LUCKY);
    s := Step(s, 0, LUCKY);
    s := Step(s, 0, LUCKY);
  }

  lemma Up() returns (s: State)
    ensures Reachable(s) && s == State(Fields(Some(0), true, false, 1), None, map[0 := RunTest])
  {
    hide Reachable;
    s := Stored();
    s := Step(s, 0, LUCKY);
    s := Step(s, 0, LUCKY);
    s := Step(s, 0, LUCKY);
    s := Step(s, 0, LUCKY);
  }

  lemma Stopping() returns (s: State)
    ensures Reachable(s) && s == State(Fields(Some(0), true, false, 1), None, map[0 := RunTest, 1 := StopClose])
  {
    hide Reachable;
    s := Up();
    ReachNext(s, Start(1, StopTest));
    s := After(s, Start(1, StopTest));
    s := Step(s, 1, STOPPED);
  }

  lemma Leaving() returns (s: State)
    ensures Reachable(s)
    ensures s == State(Fields(Some(0), true, false, 1), None, map[0 := CloseLock, 1 := StopClose])
  {
    hide Reachable;
    s := Stopping();
    s := Step(s, 0, STOPPED);
    s := Step(s, 0, STOPPED);
  }

  lemma Closing() returns (s: State)
    ensures Reachable(s)
    ensures s == State(Fields(Some(0), true, false, 1), Some(0), map[0 := CloseTest, 1 := StopClose])
  {
    hide Reachable;
    s := Leaving();
    s := Step(s, 0, STOPPED);
  }

  lemma Dropping() returns (s: State)
    ensures Reachable(s)
    ensures s == State(Fields(Some(0), true, false, 1), Some(0), map[0 := CloseNil, 1 := StopClose])
  {
    hide Reachable;
    s := Closing();
    s := Step(s, 0, STOPPED);
    s := Step(s, 0, STOPPED);
  }

  // A stop may test the connection, lose it to the run loop that closes it, and then use none.
  lemma StopMayFindNothing() returns (s: State)
    ensures Reachable(s) && 1 in s.threads && s.threads[1] == StopClose && s.fields.conn.None?
  {
    hide Reachable;
    s := Dropping();
    s := Step(s, 0, STOPPED);
  }

  // Step k of a run drops the connection, or stores one.
  predicate Drops(states: seq<State>, es: seq<Event>, k: nat)
  {
    k < |es| && k < |states| && es[k].Move? && es[k].t in states[k].threads && states[k].threads[es[k].t].CloseNil?
  }

  predicate Stores(states: seq<State>, es: seq<Event>, k: nat)
  {
    k < |es| && k < |states| && es[k].Move? && es[k].t in states[k].threads && states[k].threads[es[k].t].ConnectStore?
  }

  // No connection is stored from step k on, up to state i.
  ghost predicate NoneStored(states: seq<State>, es: seq<Event>, k: nat, i: nat) {
    forall l: nat :: k <= l < i ==> !Stores(states, es, l)
  }

  // Step k drops the connection and none is stored after it, up to state i.
  ghost predicate DroppedAt(states: seq<State>, es: seq<Event>, k: nat, i: nat) {
    k < i && Drops(states, es, k) && NoneStored(states, es, k, i)
  }

  // Only these two steps move the connection.
  lemma StepConnection(states: seq<State>, es: seq<Event>, k: nat)
    requires Run(states, es) && k < |es|
    ensures |states| == |es| + 1
    ensures var now, next := states[k].fields.conn, states[k + 1].fields.conn;
      if Drops(states, es, k) then next.None? && !Stores(states, es, k)
      else if Stores(states, es, k) then next.Some?
      else next == now
  {
    hide Run, Act;
    RunStep(states, es, k);
    if es[k].Move? {
      ActConnection(states[k].threads[es[k].t], states[k].fields, es[k].luck);
    }
  }

  lemma RunStep(states: seq<State>, es: seq<Event>, k: nat)
    requires Run(states, es) && k < |es|
    ensures |states| == |es| + 1 && Possible(states[k], es[k]) && states[k + 1] == After(states[k], es[k])
  {
    hide Possible, After;
  }

  lemma ConnectConnection(pc: Pc, f: Fields, luck: Luck)
    ensures var c := Connect(pc, f, luck).fields.conn; if pc.ConnectStore? then c.Some? else c == f.conn
  {
  }

  lemma SendOrCloseConnection(pc: Pc, f: Fields, luck: Luck)
    ensures var c := SendOrClose(pc, f, luck).fields.conn; if pc.CloseNil? then c.None? else c == f.conn
  {
  }

  lemma LoopOrReceiveConnection(pc: Pc, f: Fields, luck: Luck)
    ensures LoopOrReceive(pc, f, luck).fields.conn == f.conn
  {
    hide Connect, SendOrClose;
    if InLoop(pc) {
      assert LoopOrReceive(pc, f, luck).fields == f;
    }
  }

  lemma ActConnection(pc: Pc, f: Fields, luck: Luck)
    ensures var c := Act(pc, f, luck).fields.conn;
      if pc.CloseNil? then c.None? else if pc.ConnectStore? then c.Some? else c == f.conn
  {
    hide Connect, SendOrClose, LoopOrReceive;
    ConnectConnection(pc, f, luck);
    SendOrCloseConnection(pc, f, luck);
    LoopOrReceiveConnection(pc, f, luck);
  }

  // Once there is a connection there is none later exactly when it was dropped and none stored since.
  lemma {:induction false} NoneExactlyAfterDrop(states: seq<State>, es: seq<Event>, j: nat, i: nat)
    requires Run(states, es) && j <= i <= |es| && states[j].fields.conn.Some?
    ensures states[i].fields.conn.None? <==> exists k: nat :: j <= k && DroppedAt(states, es, k, i)
    decreases i
  {
    hide Drops, Stores;
    if i > j {
      var l := i - 1;
      NoneExactlyAfterDrop(states, es, j, l);
      StepConnection(states, es, l);
      if Drops(states, es, l) {
        assert NoneStored(states, es, l, i);
        assert DroppedAt(states, es, l, i);
      } else if Stores(states, es, l) {
        assert forall k: nat :: !(k < i && NoneStored(states, es, k, i));
      } else {
        forall k: nat ensures DroppedAt(states, es, k, i) <==> DroppedAt(states, es, k, l) {
          DroppedEarlier(states, es, k, i);
        }
      }
    }
  }

  lemma DroppedEarlier(states: seq<State>, es: seq<Event>, k: nat, i: nat)
    requires 0 < i && !Drops(states, es, i - 1) && !Stores(states, es, i - 1)
    ensures DroppedAt(states, es, k, i) <==> DroppedAt(states, es, k, i - 1)
  {
    hide Drops, Stores;
  }

  // A thread that has finished stays so, and one about to use the connection for a stop has tested it.
  lemma {:induction false} StopTested(states: seq<State>, es: seq<Event>, j: nat, i: nat, t: nat)
    requires Run(states, es) && j < i <= |es| && t in states[j].threads && t in states[i].threads
    requires es[j].Move? && es[j].t == t && states[j].threads[t].StopTest? && states[i].threads[t].StopClose?
    ensures states[j].fields.conn.Some?
  {
    RunStep(states, es, j);
    if states[j].fields.conn.None? {
      FinishedStays(states, es, j + 1, i, t);
    }
  }

  lemma {:induction false} FinishedStays(states: seq<State>, es: seq<Event>, j: nat, i: nat, t: nat)
    requires Run(states, es) && j <= i <= |es| && t in states[j].threads && states[j].threads[t].Finished?
    ensures t in states[i].threads && states[i].threads[t].Finished?
    decreases i
  {
    hide Run;
    if i > j {
      FinishedStays(states, es, j, i - 1, t);
      RunStep(states, es, i - 1);
    }
  }

  // A stop that tested the connection at step j finds none when it uses it exactly when a run loop dropped the
  // connection in between and none was stored since.
  lemma StopFindsNothingIff(states: seq<State>, es: seq<Event>, j: nat, i: nat, t: nat)
    requires Run(states, es) && j < i <= |es| && t in states[j].threads && t in states[i].threads
    requires es[j].Move? && es[j].t == t && states[j].threads[t].StopTest? && states[i].threads[t].StopClose?
    ensures states[i].fields.conn.None? <==> exists k: nat :: j < k && DroppedAt(states, es, k, i)
  {
    StopTested(states, es, j, i, t);
    NoneExactlyAfterDrop(states, es, j, i);
    assert !Drops(states, es, j);
  }
}
