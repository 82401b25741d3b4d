/** The lock protocol of system/common/message_loop_thread.cc between any number of client threads and
    the worker thread: every section under the mutex, and every read outside it, is one step. */
module MessageLoopProtocol {
  import opened Wrappers

  type Client = nat

  /** Names a std::thread object, and with it the message loop and run loop its worker makes. */
  type Thread = nat

  /** The fields the mutex protects; `None` is a null pointer, or -1 for `threadId`. */
  datatype Shared = Shared(
    thread: Option<Thread>, messageLoop: Option<Thread>, runLoop: Option<Thread>, threadId: Option<Thread>,
    shuttingDown: bool)

  /** Before its first locked section, after it, in `Run()` on a run loop, past it, returned. */
  datatype WorkerPc = Created | Begun | Looping(loop: Thread) | Leaving | Done

  datatype Worker = Worker(pc: WorkerPc, joined: bool, deleted: bool)

  /** Waiting for the start-up promise; between the first section of ShutDown and the join; blocked in
      the join; between the join and the last section. */
  datatype ClientPc = Idle | AwaitStart(t: Thread) | Joining | JoinBlocked(t: Thread) | Joined(t: Thread)

  datatype Event = JoinedBy(c: Client, t: Thread) | DeletedBy(c: Client, t: Thread)

  /** `loops` and `runLoops` are the loop objects not yet deleted, `quitting` those told to quit; `fault`
      records any null or dangling access, double join, or delete of an unjoined thread. */
  datatype State = State(
    shared: Shared, workers: seq<Worker>, clients: map<Client, ClientPc>,
    loops: set<Thread>, runLoops: set<Thread>, quitting: set<Thread>,
    joiner: Option<Client>, log: seq<Event>, fault: bool)

  function Pc(s: State, c: Client): ClientPc {
    if c in s.clients then s.clients[c] else Idle
  }

  function Initial(): State {
    State(Shared(None, None, None, None, false), [], map[], {}, {}, {}, None, [], false)
  }

  datatype Action =
    | StartUp(c: Client) | StartUpReturn(c: Client)
    | ShutDown(c: Client) | JoinCall(c: Client) | JoinReturn(c: Client) | ShutDownEnd(c: Client)
    | Post(c: Client)
    | RunBegin(t: Thread) | RunEnter(t: Thread) | RunQuit(t: Thread) | RunEnd(t: Thread)

  predicate Enabled(s: State, a: Action) {
    match a
    case StartUp(c) => Pc(s, c) == Idle
    case StartUpReturn(c) =>
      Pc(s, c).AwaitStart? && Pc(s, c).t < |s.workers| && s.workers[Pc(s, c).t].pc != Created
    case ShutDown(c) => Pc(s, c) == Idle
    case JoinCall(c) => Pc(s, c) == Joining
    case JoinReturn(c) => Pc(s, c).JoinBlocked? && Pc(s, c).t < |s.workers| && s.workers[Pc(s, c).t].pc == Done
    case ShutDownEnd(c) => Pc(s, c).Joined?
    case Post(c) => Pc(s, c) == Idle
    case RunBegin(t) => t < |s.workers| && s.workers[t].pc == Created
    case RunEnter(t) => t < |s.workers| && s.workers[t].pc == Begun
    case RunQuit(t) => t < |s.workers| && s.workers[t].pc.Looping? && s.workers[t].pc.loop in s.quitting
    case RunEnd(t) => t < |s.workers| && s.workers[t].pc == Leaving
  }

  // --- the sections, as changes of the protected fields ---

  function StartUpSection(sh: Shared, t: Thread): Shared {
    if sh.thread.Some? then sh else sh.(thread := Some(t))
  }

  predicate ShutDownProceeds(sh: Shared) {
    sh.thread.Some? && sh.messageLoop.Some? && !sh.shuttingDown
  }

  function ShutDownSection(sh: Shared): Shared {
    if ShutDownProceeds(sh) then sh.(shuttingDown := true) else sh
  }

  function ShutDownEndSection(sh: Shared): Shared {
    sh.(thread := None, shuttingDown := false)
  }

  function RunBeginSection(sh: Shared, t: Thread): Shared {
    sh.(messageLoop := Some(t), runLoop := Some(t), threadId := Some(t))
  }

  function RunEndSection(sh: Shared): Shared {
    sh.(messageLoop := None, runLoop := None, threadId := None)
  }

  // --- the steps ---

  predicate Live(o: Option<Thread>, objects: set<Thread>) {
    o.Some? && o.value in objects
  }

  function AsSet(o: Option<Thread>): set<Thread> {
    if o.Some? then {o.value} else {}
  }

  function Step(s: State, a: Action): State
    requires Enabled(s, a)
  {
    var sh := s.shared;
    match a
    case StartUp(c) =>
      if sh.thread.Some? then s.(shared := StartUpSection(sh, |s.workers|))
      else
        var t := |s.workers|;
        s.(shared := StartUpSection(sh, t), workers := s.workers + [Worker(Created, false, false)],
           clients := s.clients[c := AwaitStart(t)])
    case StartUpReturn(c) => s.(clients := s.clients[c := Idle])
    case ShutDown(c) =>
      if !ShutDownProceeds(sh) then s.(shared := ShutDownSection(sh))
      else
        s.(shared := ShutDownSection(sh), clients := s.clients[c := Joining], joiner := Some(c),
           quitting := s.quitting + AsSet(sh.runLoop), fault := s.fault || !Live(sh.runLoop, s.runLoops))
    case JoinCall(c) =>
      if sh.thread.None? || sh.thread.value >= |s.workers| then s.(fault := true)
      else
        var t := sh.thread.value;
        s.(clients := s.clients[c := JoinBlocked(t)],
           fault := s.fault || s.workers[t].joined || s.workers[t].deleted)
    case JoinReturn(c) =>
      var t := Pc(s, c).t;
      s.(clients := s.clients[c := Joined(t)], workers := s.workers[t := s.workers[t].(joined := true)],
         log := s.log + [JoinedBy(c, t)], fault := s.fault || s.workers[t].joined)
    case ShutDownEnd(c) =>
      if sh.thread.None? || sh.thread.value >= |s.workers| then s.(fault := true)
      else
        var t := sh.thread.value;
        s.(shared := ShutDownEndSection(sh), clients := s.clients[c := Idle], joiner := None,
           workers := s.workers[t := s.workers[t].(deleted := true)], log := s.log + [DeletedBy(c, t)],
           fault := s.fault || !s.workers[t].joined || s.workers[t].deleted)
    case Post(c) => s.(fault := s.fault || (sh.messageLoop.Some? && sh.messageLoop.value !in s.loops))
    case RunBegin(t) =>
      s.(shared := RunBeginSection(sh, t), loops := s.loops + {t}, runLoops := s.runLoops + {t},
         workers := s.workers[t := s.workers[t].(pc := Begun)],
         fault := s.fault || sh.messageLoop.Some? || sh.runLoop.Some?)
    case RunEnter(t) =>
      if sh.runLoop.None? then s.(fault := true)
      else
        s.(workers := s.workers[t := s.workers[t].(pc := Looping(sh.runLoop.value))],
           fault := s.fault || sh.runLoop.value !in s.runLoops)
    case RunQuit(t) =>
      s.(workers := s.workers[t := s.workers[t].(pc := Leaving)],
         fault := s.fault || s.workers[t].pc.loop !in s.runLoops)
    case RunEnd(t) =>
      s.(shared := RunEndSection(sh), loops := s.loops - AsSet(sh.messageLoop),
         runLoops := s.runLoops - AsSet(sh.runLoop),
         workers := s.workers[t := s.workers[t].(pc := Done)],
         fault := s.fault || !Live(sh.messageLoop, s.loops) || !Live(sh.runLoop, s.runLoops))
  }

  // --- the invariant ---

  predicate Active(pc: WorkerPc) {
    pc == Begun || pc.Looping? || pc == Leaving
  }

  predicate InShutDown(pc: ClientPc) {
    pc == Joining || pc.JoinBlocked? || pc.Joined?
  }

  /** The three pointers a worker sets are all present or all absent; present, they belong to the
      current thread object while its worker is between its sections, and nothing else is alive. */
  ghost predicate LoopsAgree(s: State) {
    var sh := s.shared;
    && sh.messageLoop == sh.runLoop == sh.threadId
    && s.loops == s.runLoops == AsSet(sh.messageLoop)
    && (sh.messageLoop.Some? <==>
          sh.thread.Some? && sh.thread.value < |s.workers| && Active(s.workers[sh.thread.value].pc))
    && (sh.messageLoop.Some? ==> sh.messageLoop == sh.thread)
  }

  /** Every thread object but the current one has been joined and then deleted. */
  ghost predicate OldOnesGone(s: State) {
    && (s.shared.thread.Some? ==> s.shared.thread.value < |s.workers|)
    && (forall t :: t in s.quitting ==> t < |s.workers|)
    && forall t: Thread :: t < |s.workers| && s.shared.thread != Some(t) ==> s.workers[t] == Worker(Done, true, true)
  }

  /** The current thread object: it is not deleted, it runs its own loop, it ends only when told to
      quit, and it is told to quit only by the one client that is shutting it down. */
  ghost predicate CurrentOk(s: State) {
    s.shared.thread.Some? ==>
      var t := s.shared.thread.value;
      t < |s.workers| &&
      var w := s.workers[t];
      && !w.deleted
      && (w.pc.Looping? ==> w.pc.loop == t)
      && (w.pc == Leaving || w.pc == Done ==> t in s.quitting)
      && (t in s.quitting <==> s.joiner.Some?)
      && (w.pc == Created ==> t !in s.quitting)
      && (w.joined ==> w.pc == Done && s.joiner.Some? && Pc(s, s.joiner.value) == Joined(t))
  }

  ghost predicate JoinerOk(s: State) {
    && s.shared.shuttingDown == s.joiner.Some?
    && (s.joiner.Some? ==> s.shared.thread.Some?)
    && (forall c: Client :: InShutDown(Pc(s, c)) <==> s.joiner == Some(c))
    && (forall c: Client :: Pc(s, c).JoinBlocked? || Pc(s, c).Joined? ==> s.shared.thread == Some(Pc(s, c).t))
    && (forall c: Client :: Pc(s, c).Joined? && Pc(s, c).t < |s.workers| ==>
          s.workers[Pc(s, c).t].joined && JoinedBy(c, Pc(s, c).t) in s.log)
    && (forall c: Client :: Pc(s, c).AwaitStart? ==> Pc(s, c).t < |s.workers|)
  }

  /** Over the whole history: a thread object is joined at most once, deleted at most once, and
      deleted only after it was joined, by the same client. */
  ghost predicate LogOk(log: seq<Event>, workers: seq<Worker>) {
    && (forall i, j :: 0 <= i < j < |log| && log[i].t == log[j].t ==> log[i].JoinedBy? != log[j].JoinedBy?)
    && JoinsFirst(log)
    && (forall i :: 0 <= i < |log| ==>
          && log[i].t < |workers|
          && (if log[i].JoinedBy? then workers[log[i].t].joined else workers[log[i].t].deleted))
  }

  ghost predicate JoinsFirst(log: seq<Event>) {
    forall i :: 0 <= i < |log| && log[i].DeletedBy? ==> JoinedBy(log[i].c, log[i].t) in log[..i]
  }

  lemma JoinsFirstAppend(log: seq<Event>, e: Event)
    requires JoinsFirst(log) && (e.DeletedBy? ==> JoinedBy(e.c, e.t) in log)
    ensures JoinsFirst(log + [e])
  {
    var log' := log + [e];
    forall i | 0 <= i < |log'| && log'[i].DeletedBy? ensures JoinedBy(log'[i].c, log'[i].t) in log'[..i] {
      if i < |log| {
        assert log'[i] == log[i] && log'[..i] == log[..i];
      } else {
        assert log'[..i] == log;
      }
    }
  }

  lemma LogAppend(log: seq<Event>, workers: seq<Worker>, e: Event)
    requires LogOk(log, workers) && e.t < |workers|
    requires if e.JoinedBy? then !workers[e.t].joined else !workers[e.t].deleted && JoinedBy(e.c, e.t) in log
    ensures var w := workers[e.t];
            LogOk(log + [e], workers[e.t := if e.JoinedBy? then w.(joined := true) else w.(deleted := true)])
  {
    JoinsFirstAppend(log, e);
    assert forall i :: 0 <= i < |log| ==> (log + [e])[i] == log[i];
  }

  ghost predicate Inv(s: State) {
    !s.fault && LoopsAgree(s) && OldOnesGone(s) && CurrentOk(s) && JoinerOk(s) && LogOk(s.log, s.workers)
  }

  lemma StartUpKeeps(s: State, a: Action)
    requires Inv(s) && Enabled(s, a) && (a.StartUp? || a.StartUpReturn? || a.Post?)
    ensures Inv(Step(s, a))
  {
  }

  lemma ShutDownKeeps(s: State, a: Action)
    requires Inv(s) && Enabled(s, a) && (a.ShutDown? || a.JoinCall?)
    ensures Inv(Step(s, a))
  {
  }

  lemma JoinReturnKeeps(s: State, c: Client)
    requires Inv(s) && Enabled(s, JoinReturn(c))
    ensures Inv(Step(s, JoinReturn(c)))
  {
    var t := Pc(s, c).t;
    assert s.joiner == Some(c);
    LogAppend(s.log, s.workers, JoinedBy(c, t));
  }

  lemma ShutDownEndKeeps(s: State, c: Client)
    requires Inv(s) && Enabled(s, ShutDownEnd(c))
    ensures Inv(Step(s, ShutDownEnd(c)))
  {
    LogAppend(s.log, s.workers, DeletedBy(c, Pc(s, c).t));
  }

  lemma RunStartKeeps(s: State, a: Action)
    requires Inv(s) && Enabled(s, a) && (a.RunBegin? || a.RunEnter?)
    ensures Inv(Step(s, a))
  {
  }

  lemma RunStopKeeps(s: State, a: Action)
    requires Inv(s) && Enabled(s, a) && (a.RunQuit? || a.RunEnd?)
    ensures Inv(Step(s, a))
  {
  }

  lemma StepKeepsInv(s: State, a: Action)
    requires Inv(s) && Enabled(s, a)
    ensures Inv(Step(s, a))
  {
    match a
    case JoinReturn(c) => JoinReturnKeeps(s, c);
    case ShutDownEnd(c) => ShutDownEndKeeps(s, c);
    case RunBegin(_) => RunStartKeeps(s, a);
    case RunEnter(_) => RunStartKeeps(s, a);
    case RunQuit(_) => RunStopKeeps(s, a);
    case RunEnd(_) => RunStopKeeps(s, a);
    case ShutDown(_) => ShutDownKeeps(s, a);
    case JoinCall(_) => ShutDownKeeps(s, a);
    case _ => StartUpKeeps(s, a);
  }

  // --- every interleaving ---

  ghost predicate IsRun(states: seq<State>, actions: seq<Action>) {
    && |states| == |actions| + 1 && states[0] == Initial()
    && forall i {:trigger actions[i]} :: 0 <= i < |actions| ==>
         Enabled(states[i], actions[i]) && states[i + 1] == Step(states[i], actions[i])
  }

  /** No interleaving of any number of clients with the worker ever faults, and the invariant, with
      its account of joins and deletions, holds throughout. */
  lemma {:induction false} RunSafe(states: seq<State>, actions: seq<Action>, i: nat)
    requires IsRun(states, actions) && i < |states|
    ensures !states[i].fault && Inv(states[i])
  {
    if i > 0 {
      RunSafe(states, actions, i - 1);
      assert Enabled(states[i - 1], actions[i - 1]);
      StepKeepsInv(states[i - 1], actions[i - 1]);
    }
  }

  /** In every state of every interleaving: no null or dangling access, double join or early delete so far;
      message loop, run loop and thread id are all present or all absent, and present exactly while there is a
      thread object whose worker is between its two sections; of two log entries for the same thread object one
      is its join and one its deletion, and each deletion comes after the join by the same client. */
  lemma RunPromises(states: seq<State>, actions: seq<Action>, i: nat)
    requires IsRun(states, actions) && i < |states|
    ensures var s := states[i];
            var sh, log := s.shared, s.log;
            && !s.fault
            && sh.messageLoop.Some? == sh.runLoop.Some? == sh.threadId.Some?
            && (sh.threadId.Some? <==>
                  sh.thread.Some? && sh.thread.value < |s.workers| && Active(s.workers[sh.thread.value].pc))
            && (forall j, k :: 0 <= j < k < |log| && log[j].t == log[k].t ==> log[j].JoinedBy? != log[k].JoinedBy?)
            && (forall k :: 0 <= k < |log| && log[k].DeletedBy? ==> JoinedBy(log[k].c, log[k].t) in log[..k])
  {
    RunSafe(states, actions, i);
  }

  lemma OnlyJoiner(s: State, c: Client)
    requires Inv(s) && InShutDown(Pc(s, c))
    ensures s.shared.thread.Some? && forall d: Client :: InShutDown(Pc(s, d)) ==> d == c
  {
    assert s.joiner == Some(c);
  }

  lemma ThreadHeldInStep(s: State, a: Action, c: Client)
    requires Inv(s) && Enabled(s, a) && InShutDown(Pc(s, c)) && InShutDown(Pc(Step(s, a), c))
    ensures Step(s, a).shared.thread == s.shared.thread
  {
    assert s.joiner == Some(c);
  }

  /** As long as a client uses the thread object outside the lock, nobody replaces it, and nobody else is
      shutting down. */
  lemma {:induction false} ThreadHeldWhileJoining(states: seq<State>, actions: seq<Action>, c: Client, i: nat, j: nat)
    requires IsRun(states, actions) && i <= j < |states|
    requires forall k :: i <= k <= j ==> InShutDown(Pc(states[k], c))
    ensures states[i].shared.thread.Some? && states[j].shared.thread == states[i].shared.thread
    ensures forall d: Client :: InShutDown(Pc(states[j], d)) ==> d == c
    decreases j
  {
    JoinerAt(states, actions, c, j);
    if i < j {
      ThreadHeldWhileJoining(states, actions, c, i, j - 1);
      ThreadHeldAt(states, actions, c, j - 1);
    }
  }

  lemma JoinerAt(states: seq<State>, actions: seq<Action>, c: Client, i: nat)
    requires IsRun(states, actions) && i < |states| && InShutDown(Pc(states[i], c))
    ensures states[i].shared.thread.Some? && forall d: Client :: InShutDown(Pc(states[i], d)) ==> d == c
  {
    RunSafe(states, actions, i);
    OnlyJoiner(states[i], c);
  }

  lemma ThreadHeldAt(states: seq<State>, actions: seq<Action>, c: Client, i: nat)
    requires IsRun(states, actions) && i < |actions|
    requires InShutDown(Pc(states[i], c)) && InShutDown(Pc(states[i + 1], c))
    ensures states[i + 1].shared.thread == states[i].shared.thread
  {
    RunSafe(states, actions, i);
    assert Enabled(states[i], actions[i]) && states[i + 1] == Step(states[i], actions[i]);
    ThreadHeldInStep(states[i], actions[i], c);
  }

  // --- every call returns ---

  /** How far a call is from returning, counting the steps of the worker it waits for. */
  ghost function Distance(s: State, c: Client): nat {
    match Pc(s, c)
    case Idle => 0
    case AwaitStart(t) => if t < |s.workers| && s.workers[t].pc == Created then 2 else 1
    case Joining => 7
    case JoinBlocked(t) => 2 + if t < |s.workers| then WorkLeft(s.workers[t].pc) else 0
    case Joined(_) => 1
  }

  ghost function WorkLeft(pc: WorkerPc): nat {
    match pc
    case Created => 4
    case Begun => 3
    case Looping(_) => 2
    case Leaving => 1
    case Done => 0
  }

  /** The step a call in progress waits for: its own, or its worker's. */
  ghost function Awaited(s: State, c: Client): Action
    requires Pc(s, c) != Idle
  {
    match Pc(s, c)
    case AwaitStart(t) => if t < |s.workers| && s.workers[t].pc == Created then RunBegin(t) else StartUpReturn(c)
    case Joining => JoinCall(c)
    case JoinBlocked(t) =>
      if t < |s.workers| then
        match s.workers[t].pc
        case Created => RunBegin(t)
        case Begun => RunEnter(t)
        case Looping(_) => RunQuit(t)
        case Leaving => RunEnd(t)
        case Done => JoinReturn(c)
      else JoinReturn(c)
    case Joined(_) => ShutDownEnd(c)
  }

  /** No deadlock: a call in progress always has a step it waits for that can be taken and brings it
      closer, and no step of anybody takes it further away. */
  lemma CallsReturn(s: State, c: Client, a: Action)
    requires Inv(s) && Pc(s, c) != Idle && Enabled(s, a)
    ensures Enabled(s, Awaited(s, c)) && Distance(Step(s, Awaited(s, c)), c) < Distance(s, c)
    ensures Distance(Step(s, a), c) <= Distance(s, c)
  {
    AwaitedHelps(s, c);
    NobodyHinders(s, c, a);
  }

  lemma AwaitedHelps(s: State, c: Client)
    requires Inv(s) && Pc(s, c) != Idle
    ensures Enabled(s, Awaited(s, c)) && Distance(Step(s, Awaited(s, c)), c) < Distance(s, c)
  {
    assert InShutDown(Pc(s, c)) ==> s.joiner == Some(c);
  }

  lemma NobodyHinders(s: State, c: Client, a: Action)
    requires Inv(s) && Pc(s, c) != Idle && Enabled(s, a)
    ensures Distance(Step(s, a), c) <= Distance(s, c)
  {
    assert InShutDown(Pc(s, c)) ==> s.joiner == Some(c);
  }

  /** While a call comes no closer to returning, it waits for the same step. */
  lemma AwaitedStays(s: State, c: Client, a: Action)
    requires Inv(s) && Pc(s, c) != Idle && Enabled(s, a) && Distance(Step(s, a), c) == Distance(s, c)
    ensures Pc(Step(s, a), c) != Idle && Awaited(Step(s, a), c) == Awaited(s, c)
  {
    assert InShutDown(Pc(s, c)) ==> s.joiner == Some(c);
  }

  /** A run without end. */
  ghost predicate IsEndless(states: nat -> State, actions: nat -> Action) {
    && states(0) == Initial()
    && forall i: nat {:trigger actions(i)} ::
         Enabled(states(i), actions(i)) && states(i + 1) == Step(states(i), actions(i))
  }

  /** A step that begins a call; nobody has to take it. */
  predicate BeginsCall(a: Action) {
    a.StartUp? || a.ShutDown? || a.Post?
  }

  ghost predicate EnabledFrom(states: nat -> State, a: Action, i: nat) {
    forall k: nat :: k >= i ==> Enabled(states(k), a)
  }

  ghost predicate TakenFrom(actions: nat -> Action, a: Action, i: nat) {
    exists k: nat :: k >= i && actions(k) == a
  }

  /** Weakly fair scheduling: a step that stays possible is taken. */
  ghost predicate IsFair(states: nat -> State, actions: nat -> Action) {
    forall a: Action, i: nat :: EnabledFrom(states, a, i) && !BeginsCall(a) ==> TakenFrom(actions, a, i)
  }

  lemma {:induction false} EndlessSafe(states: nat -> State, actions: nat -> Action, i: nat)
    requires IsEndless(states, actions)
    ensures Inv(states(i))
  {
    if i > 0 {
      EndlessSafe(states, actions, i - 1);
      assert Enabled(states(i - 1), actions(i - 1));
      StepKeepsInv(states(i - 1), actions(i - 1));
    }
  }

  lemma {:induction false} StuckWaits(states: nat -> State, actions: nat -> Action, c: Client, i: nat, k: nat)
    requires IsEndless(states, actions) && i <= k && Pc(states(i), c) != Idle
    requires forall m: nat :: m >= i ==> Distance(states(m), c) >= Distance(states(i), c)
    ensures Distance(states(k), c) == Distance(states(i), c)
    ensures Pc(states(k), c) != Idle && Awaited(states(k), c) == Awaited(states(i), c)
    decreases k
  {
    if k > i {
      StuckWaits(states, actions, c, i, k - 1);
      EndlessSafe(states, actions, k - 1);
      assert states(k) == Step(states(k - 1), actions(k - 1));
      NobodyHinders(states(k - 1), c, actions(k - 1));
      AwaitedStays(states(k - 1), c, actions(k - 1));
    }
  }

  lemma StuckEnables(states: nat -> State, actions: nat -> Action, c: Client, i: nat)
    requires IsEndless(states, actions) && Pc(states(i), c) != Idle
    requires forall m: nat :: m >= i ==> Distance(states(m), c) >= Distance(states(i), c)
    ensures EnabledFrom(states, Awaited(states(i), c), i) && !BeginsCall(Awaited(states(i), c))
  {
    forall k: nat | k >= i ensures Enabled(states(k), Awaited(states(i), c)) {
      StuckWaits(states, actions, c, i, k);
      EndlessSafe(states, actions, k);
      AwaitedHelps(states(k), c);
    }
  }

  /** Under fair scheduling a call in progress comes closer to returning. */
  lemma ComesCloser(states: nat -> State, actions: nat -> Action, c: Client, i: nat)
    requires IsEndless(states, actions) && IsFair(states, actions) && Pc(states(i), c) != Idle
    ensures exists m: nat :: m >= i && Distance(states(m), c) < Distance(states(i), c)
  {
    if forall m: nat :: m >= i ==> Distance(states(m), c) >= Distance(states(i), c) {
      var a := Awaited(states(i), c);
      StuckEnables(states, actions, c, i);
      var k: nat :| k >= i && actions(k) == a;
      StuckWaits(states, actions, c, i, k);
      EndlessSafe(states, actions, k);
      AwaitedHelps(states(k), c);
      assert false;
    }
  }

  /** Under fair scheduling every StartUp and every ShutDown returns. */
  lemma {:induction false} EveryCallReturns(states: nat -> State, actions: nat -> Action, c: Client, i: nat)
    returns (j: nat)
    requires IsEndless(states, actions) && IsFair(states, actions)
    ensures j >= i && Pc(states(j), c) == Idle
    decreases Distance(states(i), c)
  {
    if Pc(states(i), c) == Idle {
      j := i;
    } else {
      ComesCloser(states, actions, c, i);
      var m: nat :| m >= i && Distance(states(m), c) < Distance(states(i), c);
      j := EveryCallReturns(states, actions, c, m);
    }
  }

  // --- what a call achieves ---

  /** ShutDown does nothing exactly when there is no running loop or somebody is shutting it down already. */
  lemma ShutDownActs(s: State, c: Client)
    requires Inv(s) && Pc(s, c) == Idle
    ensures Step(s, ShutDown(c)) == s <==> s.shared.messageLoop.None? || s.shared.shuttingDown
    ensures s.shared.messageLoop.Some? && !s.shared.shuttingDown ==>
              var s' := Step(s, ShutDown(c));
              && InShutDown(Pc(s', c)) && s'.shared.thread == s.shared.messageLoop
              && s.shared.messageLoop.value in s'.quitting
  {
  }

  /** StartUp does nothing exactly when there is a thread object. */
  lemma StartUpActs(s: State, c: Client)
    requires Pc(s, c) == Idle
    ensures Step(s, StartUp(c)) == s <==> s.shared.thread.Some?
    ensures s.shared.thread.None? ==>
              var s' := Step(s, StartUp(c));
              && s'.shared.thread == Some(|s.workers|) && Pc(s', c) == AwaitStart(|s.workers|)
              && s'.workers == s.workers + [Worker(Created, false, false)]
  {
  }

  /** A client leaves its shutdown only by deleting the thread object, which it has joined. */
  lemma ShutDownStep(s: State, a: Action, c: Client, t: Thread)
    requires Inv(s) && Enabled(s, a) && InShutDown(Pc(s, c)) && s.shared.thread == Some(t)
    ensures var s' := Step(s, a);
            if Pc(s', c) == Idle then JoinedBy(c, t) in s'.log && DeletedBy(c, t) in s'.log
            else InShutDown(Pc(s', c)) && s'.shared.thread == Some(t)
  {
    assert s.joiner == Some(c);
    if a == ShutDownEnd(c) {
      assert JoinedBy(c, t) in s.log;
      assert Step(s, a).log == s.log + [DeletedBy(c, t)];
    }
  }

  lemma {:induction false} ShutDownFinishes(
    states: nat -> State, actions: nat -> Action, c: Client, t: Thread, k: nat, end: nat) returns (j: nat)
    requires IsEndless(states, actions) && k <= end && Pc(states(end), c) == Idle
    requires InShutDown(Pc(states(k), c)) && states(k).shared.thread == Some(t)
    ensures j > k && Pc(states(j), c) == Idle && JoinedBy(c, t) in states(j).log && DeletedBy(c, t) in states(j).log
    decreases end - k
  {
    EndlessSafe(states, actions, k);
    assert states(k + 1) == Step(states(k), actions(k));
    ShutDownStep(states(k), actions(k), c, t);
    if Pc(states(k + 1), c) == Idle {
      j := k + 1;
    } else {
      j := ShutDownFinishes(states, actions, c, t, k + 1, end);
    }
  }

  /** Under fair scheduling a ShutDown that finds a running loop, and nobody shutting it down, returns having
      joined and deleted its thread object. */
  lemma ShutDownEnds(states: nat -> State, actions: nat -> Action, c: Client, i: nat) returns (j: nat)
    requires IsEndless(states, actions) && IsFair(states, actions) && actions(i) == ShutDown(c)
    requires states(i).shared.messageLoop.Some? && !states(i).shared.shuttingDown
    ensures var t := states(i).shared.messageLoop.value;
            j > i && Pc(states(j), c) == Idle && JoinedBy(c, t) in states(j).log && DeletedBy(c, t) in states(j).log
  {
    EndlessSafe(states, actions, i);
    assert Enabled(states(i), actions(i)) && states(i + 1) == Step(states(i), actions(i));
    ShutDownActs(states(i), c);
    var end := EveryCallReturns(states, actions, c, i + 1);
    j := ShutDownFinishes(states, actions, c, states(i).shared.messageLoop.value, i + 1, end);
  }

  /** A client waits for the worker it created until that has begun. */
  lemma StartUpStep(s: State, a: Action, c: Client, t: Thread)
    requires Inv(s) && Enabled(s, a) && Pc(s, c) == AwaitStart(t)
    ensures var s' := Step(s, a);
            && t < |s'.workers|
            && if Pc(s', c) == Idle then a == StartUpReturn(c) && s'.workers[t].pc != Created
               else Pc(s', c) == AwaitStart(t)
  {
    assert Pc(s, c).t < |s.workers|;
  }

  lemma {:induction false} StartUpFinishes(
    states: nat -> State, actions: nat -> Action, c: Client, t: Thread, k: nat, end: nat) returns (j: nat)
    requires IsEndless(states, actions) && k <= end && Pc(states(end), c) == Idle && Pc(states(k), c) == AwaitStart(t)
    ensures j > k && Pc(states(j), c) == Idle && t < |states(j).workers| && states(j).workers[t].pc != Created
    ensures forall m: nat :: k <= m < j ==> Pc(states(m), c) == AwaitStart(t)
    decreases end - k
  {
    EndlessSafe(states, actions, k);
    assert Enabled(states(k), actions(k)) && states(k + 1) == Step(states(k), actions(k));
    StartUpStep(states(k), actions(k), c, t);
    if Pc(states(k + 1), c) == Idle {
      j := k + 1;
    } else {
      j := StartUpFinishes(states, actions, c, t, k + 1, end);
    }
  }

  /** Under fair scheduling a StartUp that finds no thread object makes one, and returns only when the worker of
      that one has begun. */
  lemma StartUpEnds(states: nat -> State, actions: nat -> Action, c: Client, i: nat) returns (j: nat)
    requires IsEndless(states, actions) && IsFair(states, actions) && actions(i) == StartUp(c)
    requires states(i).shared.thread.None?
    ensures var t := |states(i).workers|;
            && states(i + 1).shared.thread == Some(t) && t < |states(i + 1).workers|
            && j > i + 1 && Pc(states(j), c) == Idle && t < |states(j).workers| && states(j).workers[t].pc != Created
            && forall m: nat :: i < m < j ==> Pc(states(m), c) == AwaitStart(t)
  {
    assert Enabled(states(i), actions(i)) && states(i + 1) == Step(states(i), actions(i));
    StartUpActs(states(i), c);
    var end := EveryCallReturns(states, actions, c, i + 1);
    j := StartUpFinishes(states, actions, c, |states(i).workers|, i + 1, end);
  }
}

/** The object itself: each method is one section under the mutex, proved to change the fields as the
    protocol's step says. */
module MessageLoopThread {
  import opened Wrappers
  import opened MessageLoopProtocol

  /** What ShutDown does after its first section: return at once, abort because the worker itself
      called it, or join the worker after telling the run loop to quit. */
  datatype ShutDownOutcome = Return | Abort | Quit(runLoop: Option<Thread>)

  class MessageLoopThread {
    var thread: Option<Thread>
    var messageLoop: Option<Thread>
    var runLoop: Option<Thread>
    var threadId: Option<Thread>
    var shuttingDown: bool

    ghost function Abs(): Shared
      reads this
    {
      Shared(thread, messageLoop, runLoop, threadId, shuttingDown)
    }

    constructor ()
      ensures Abs() == Initial().shared
    {
      thread, messageLoop, runLoop, threadId, shuttingDown := None, None, None, None, false;
    }

    /** `t` is the thread object created if there is none. */
    method StartUpLocked(t: Thread) returns (created: bool)
      modifies this`thread
      ensures Abs() == StartUpSection(old(Abs()), t) && created == old(thread).None?
    {
      if thread != None {
        return false;
      }
      thread := Some(t);
      return true;
    }

    /** `caller` is the worker making the call, if the caller is one. */
    method ShutDownLocked(caller: Option<Thread>) returns (outcome: ShutDownOutcome)
      modifies this`shuttingDown
      ensures Abs() == ShutDownSection(old(Abs()))
      ensures outcome == Return <==> thread == None || messageLoop == None || old(shuttingDown)
      ensures outcome == if !ShutDownProceeds(old(Abs())) then Return
                         else if caller.Some? && caller == threadId then Abort else Quit(runLoop)
    {
      if thread == None {
        return Return;
      }
      if messageLoop == None {
        return Return;
      }
      if shuttingDown {
        return Return;
      }
      shuttingDown := true;
      if caller != None && threadId == caller {
        return Abort;
      }
      return Quit(runLoop);
    }

    method ShutDownEndLocked()
      modifies this`thread, this`shuttingDown
      ensures Abs() == ShutDownEndSection(old(Abs()))
    {
      thread := None;
      shuttingDown := false;
    }

    method RunBeginLocked(self: Thread)
      modifies this`messageLoop, this`runLoop, this`threadId
      ensures Abs() == RunBeginSection(old(Abs()), self)
    {
      messageLoop := Some(self);
      runLoop := Some(self);
      threadId := Some(self);
    }

    method RunEndLocked()
      modifies this`messageLoop, this`runLoop, this`threadId
      ensures Abs() == RunEndSection(old(Abs()))
    {
      threadId := None;
      messageLoop := None;
      runLoop := None;
    }

    /** `accepted` is whether the loop takes the closure; it is asked only if there is one. */
    method DoInThreadDelayed(accepted: bool) returns (ok: bool)
      ensures ok <==> messageLoop.Some? && accepted
    {
      if messageLoop == None {
        return false;
      }
      return accepted;
    }

    method IsRunning() returns (running: bool)
      ensures running == threadId.Some?
    {
      running := threadId != None;
    }
  }
}
