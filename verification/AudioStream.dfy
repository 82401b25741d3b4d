/** The output stream of system/audio_bluetooth_hw/stream_apis.cc on the port of device_port_proxy.cc:
    any number of threads calling it, interleaved with the stack's callbacks. Each section under the
    stream's mutex, up to the wait of a port method, each callback, and each write of data to the port
    is one step. */
module StreamProtocol {
  import opened Wrappers

  datatype PortState = Disabled | Standby | Starting | Started | Suspending

  datatype Status = Success | Reconfiguration | Failure

  datatype Code = Io | Busy | Invalid

  /** The port's state and the two frame counters. */
  datatype Core = Core(state: PortState, rendered: nat, presented: nat)

  // --- sections, as changes of port state and counters ---

  /** What a resume comes to, `hal` telling whether the stack takes the request. */
  datatype ResumeOutcome = Waits | Ready | Fails(code: Code)

  function ResumeOutcomeOf(state: PortState, hal: bool): ResumeOutcome {
    match state
    case Standby => if hal then Waits else Fails(Io)
    case Starting => Fails(Busy)
    case Suspending => Fails(Busy)
    case Disabled => Fails(Invalid)
    case Started => Ready
  }

  function ResumeSection(c: Core): Core {
    if c.state == Standby then c.(state := Starting) else c
  }

  /** Pausing and standby alike. */
  function SuspendSection(c: Core): Core {
    if c.state == Started then Core(Suspending, 0, c.presented) else c
  }

  function ControlResultSection(s: PortState, status: Status): PortState {
    match s
    case Started => if status == Failure then Started else Standby
    case Starting => if status == Success then Started else Standby
    case Suspending => if status == Success then Standby else Disabled
    case Disabled => Disabled
    case Standby => Standby
  }

  /** The parameters the stream acts on. */
  datatype Params = Params(a2dpSuspended: Option<bool>, closing: bool, exiting: bool)

  /** `closing` and `exiting` stop a stream that is not disabled and zero both counters. */
  function ParamsTail(c: Core, p: Params): Core {
    if (p.closing || p.exiting) && c.state != Disabled then Core(Disabled, 0, 0) else c
  }

  /** The section up to a possible wait for a suspend. */
  function ParamsSection(c: Core, p: Params, isA2dp: bool): Core {
    if p.a2dpSuspended == Some(true) && isA2dp then
      if c.state == Started then Core(Suspending, 0, c.presented)
      else ParamsTail(Core(Disabled, 0, c.presented), p)
    else if p.a2dpSuspended == Some(false) && isA2dp && c.state == Disabled then ParamsTail(c.(state := Standby), p)
    else ParamsTail(c, p)
  }

  function ParamsDoneSection(c: Core, p: Params): Core {
    ParamsTail(c.(state := Disabled), p)
  }

  // --- threads ---

  type Client = nat

  /** `born` is the suspension during which a write began, if any. */
  datatype Pc =
    | Idle
    | WriteResume(born: Option<nat>, frames: nat)
    | ResumeWait(write: bool, born: Option<nat>, frames: nat)
    | WriteData(born: Option<nat>, frames: nat)
    | WriteAccount(frames: nat)
    | WriteFailed
    | SuspendWait
    | ParamsWait(params: Params)

  /** `owner` holds the stream's mutex; `suspended` and `epoch` say whether A2dpSuspended=true has been
      handled without a later A2dpSuspended=false, and how often it was handled; `written` are the births
      of the writes that reached the port, with the suspension in force at that moment. */
  datatype Stream = Stream(
    core: Core, isA2dp: bool, owner: Option<Client>, clients: map<Client, Pc>,
    suspended: bool, epoch: nat, written: seq<(Option<nat>, Option<nat>)>)

  function PcOf(s: Stream, c: Client): Pc {
    if c in s.clients then s.clients[c] else Idle
  }

  function Opened(isA2dp: bool): Stream {
    Stream(Core(Standby, 0, 0), isA2dp, None, map[], false, 0, [])
  }

  /** The suspension in force, if any. */
  function InForce(s: Stream): Option<nat> {
    if s.suspended then Some(s.epoch) else None
  }

  datatype Action =
    | DoWrite(c: Client, frames: nat) | DoWriteResume(c: Client, hal: bool)
    | PortWrite(c: Client, taken: bool) | Account(c: Client) | GiveUp(c: Client)
    | Resume(c: Client, hal: bool) | ResumeDone(c: Client)
    | Suspend(c: Client, hal: bool) | SuspendDone(c: Client)
    | SetParams(c: Client, params: Params, hal: bool) | ParamsDone(c: Client)
    | ControlResult(status: Status) | SessionChanged

  /** A section starts only when the mutex is free; a waiting section ends only in its own thread, when
      its condition holds or its time is up, that is at any moment. */
  predicate Enabled(s: Stream, a: Action) {
    match a
    case DoWrite(c, _) => s.owner == None && PcOf(s, c) == Idle
    case DoWriteResume(c, _) => s.owner == None && PcOf(s, c).WriteResume?
    case PortWrite(c, _) => PcOf(s, c).WriteData?
    case Account(c) => s.owner == None && PcOf(s, c).WriteAccount?
    case GiveUp(c) => PcOf(s, c) == WriteFailed
    case Resume(c, _) => s.owner == None && PcOf(s, c) == Idle
    case ResumeDone(c) => s.owner == Some(c) && PcOf(s, c).ResumeWait?
    case Suspend(c, _) => s.owner == None && PcOf(s, c) == Idle
    case SuspendDone(c) => s.owner == Some(c) && PcOf(s, c) == SuspendWait
    case SetParams(c, _, _) => s.owner == None && PcOf(s, c) == Idle
    case ParamsDone(c) => s.owner == Some(c) && PcOf(s, c).ParamsWait?
    case ControlResult(_) => true
    case SessionChanged => true
  }

  function At(s: Stream, c: Client, pc: Pc): Stream {
    s.(clients := s.clients[c := pc])
  }

  /** The bookkeeping of a handled A2dpSuspended parameter. */
  function Handled(s: Stream, p: Params): Stream {
    if !s.isA2dp || p.a2dpSuspended.None? then s
    else if p.a2dpSuspended.value then s.(suspended := true, epoch := if s.suspended then s.epoch else s.epoch + 1)
    else s.(suspended := false)
  }

  function StepResume(s: Stream, c: Client, hal: bool, write: bool, born: Option<nat>, frames: nat): Stream {
    var s1 := s.(core := ResumeSection(s.core));
    match ResumeOutcomeOf(s.core.state, hal)
    case Waits => At(s1.(owner := Some(c)), c, ResumeWait(write, born, frames))
    case Ready => At(s1, c, if write then WriteData(born, frames) else Idle)
    case Fails(_) => At(s1, c, if write then WriteFailed else Idle)
  }

  function Step(s: Stream, a: Action): Stream
    requires Enabled(s, a)
  {
    match a
    case DoWrite(c, frames) =>
      At(s, c, if s.core.state == Started then WriteData(InForce(s), frames) else WriteResume(InForce(s), frames))
    case DoWriteResume(c, hal) => StepResume(s, c, hal, true, PcOf(s, c).born, PcOf(s, c).frames)
    case PortWrite(c, taken) =>
      At(s, c, if taken then WriteAccount(PcOf(s, c).frames) else Idle)
      .(written := s.written + [(PcOf(s, c).born, InForce(s))])
    case Account(c) =>
      var frames := PcOf(s, c).frames;
      At(s, c, Idle).(core := s.core.(rendered := s.core.rendered + frames, presented := s.core.presented + frames))
    case GiveUp(c) => At(s, c, Idle)
    case Resume(c, hal) => StepResume(s, c, hal, false, None, 0)
    case ResumeDone(c) =>
      var pc := PcOf(s, c);
      At(s.(owner := None), c,
         if !pc.write then Idle else if s.core.state == Started then WriteData(pc.born, pc.frames) else WriteFailed)
    case Suspend(c, hal) =>
      var s1 := s.(core := SuspendSection(s.core));
      if s.core.state == Started && hal then At(s1.(owner := Some(c)), c, SuspendWait) else s1
    case SuspendDone(c) => At(s.(owner := None), c, Idle)
    case SetParams(c, p, hal) =>
      var s1 := s.(core := ParamsSection(s.core, p, s.isA2dp));
      if s.isA2dp && p.a2dpSuspended == Some(true) && s.core.state == Started then
        if hal then At(s1.(owner := Some(c)), c, ParamsWait(p))
        else Handled(s1.(core := ParamsDoneSection(s1.core, p)), p)
      else Handled(s1, p)
    case ParamsDone(c) =>
      var p := PcOf(s, c).params;
      Handled(At(s.(owner := None, core := ParamsDoneSection(s.core, p)), c, Idle), p)
    case ControlResult(status) => s.(core := s.core.(state := ControlResultSection(s.core.state, status)))
    case SessionChanged => s.(core := s.core.(state := Disabled))
  }

  // --- the invariant ---

  /** A write born in a suspension is past its resume only once that suspension is over. */
  ghost predicate Released(s: Stream, born: Option<nat>) {
    born.Some? ==> born.value <= s.epoch && born != InForce(s)
  }

  ghost predicate PcOk(s: Stream, pc: Pc) {
    && (pc.WriteResume? && pc.born.Some? ==> pc.born.value <= s.epoch)
    && (pc.WriteData? || pc.ResumeWait? ==> Released(s, pc.born))
    && (pc.ParamsWait? ==> pc.params.a2dpSuspended == Some(true))
  }

  ghost predicate Inv(s: Stream) {
    && (s.suspended ==> s.core.state == Disabled)
    && (forall c: Client :: PcOk(s, PcOf(s, c)))
    && s.core.rendered <= s.core.presented
    && (forall k :: 0 <= k < |s.written| && s.written[k].0.Some? ==> s.written[k].0 != s.written[k].1)
  }

  lemma OthersStay(s: Stream, a: Action, c: Client)
    requires Enabled(s, a) && !ActsFor(a, c)
    ensures PcOf(Step(s, a), c) == PcOf(s, c)
  {
  }

  predicate ActsFor(a: Action, c: Client) {
    !a.ControlResult? && !a.SessionChanged? && a.c == c
  }

  /** Every thread stays in order if the one that acts does, and no suspension that ended comes back. */
  lemma PcsStayOk(s: Stream, a: Action)
    requires Inv(s) && Enabled(s, a)
    requires !a.ControlResult? && !a.SessionChanged? ==> PcOk(Step(s, a), PcOf(Step(s, a), a.c))
    requires s.epoch <= Step(s, a).epoch
    requires Step(s, a).suspended ==> InForce(Step(s, a)) == InForce(s) || Step(s, a).epoch > s.epoch
    ensures forall c: Client :: PcOk(Step(s, a), PcOf(Step(s, a), c))
  {
    forall c: Client ensures PcOk(Step(s, a), PcOf(Step(s, a), c)) {
      if !ActsFor(a, c) {
        OthersStay(s, a, c);
        assert PcOk(s, PcOf(s, c));
      }
    }
  }

  lemma WriteKeepsInv(s: Stream, a: Action)
    requires Inv(s) && Enabled(s, a)
    requires a.DoWrite? || a.DoWriteResume? || a.PortWrite? || a.Account? || a.GiveUp? || a.Resume? || a.ResumeDone?
    ensures Inv(Step(s, a))
  {
    assert PcOk(s, PcOf(s, a.c));
    PcsStayOk(s, a);
  }

  lemma OtherKeepsInv(s: Stream, a: Action)
    requires Inv(s) && Enabled(s, a)
    requires a.Suspend? || a.SuspendDone? || a.SetParams? || a.ParamsDone? || a.ControlResult? || a.SessionChanged?
    ensures Inv(Step(s, a))
  {
    assert a.ControlResult? || a.SessionChanged? || PcOk(s, PcOf(s, a.c));
    PcsStayOk(s, a);
  }

  lemma StepKeepsInv(s: Stream, a: Action)
    requires Inv(s) && Enabled(s, a)
    ensures Inv(Step(s, a))
  {
    if a.Suspend? || a.SuspendDone? || a.SetParams? || a.ParamsDone? || a.ControlResult? || a.SessionChanged? {
      OtherKeepsInv(s, a);
    } else {
      WriteKeepsInv(s, a);
    }
  }

  // --- every interleaving ---

  ghost predicate IsRun(states: seq<Stream>, actions: seq<Action>) {
    && |states| == |actions| + 1 && (states[0] == Opened(true) || states[0] == Opened(false))
    && forall i {:trigger actions[i]} :: 0 <= i < |actions| ==>
         Enabled(states[i], actions[i]) && states[i + 1] == Step(states[i], actions[i])
  }

  lemma {:induction false} RunInv(states: seq<Stream>, actions: seq<Action>, i: nat)
    requires IsRun(states, actions) && i < |states|
    ensures Inv(states[i])
  {
    if i > 0 {
      RunInv(states, actions, i - 1);
      assert Enabled(states[i - 1], actions[i - 1]);
      StepKeepsInv(states[i - 1], actions[i - 1]);
    }
  }

  /** Once A2dpSuspended=true has been handled the stream stays disabled until A2dpSuspended=false is,
      and no write that begins in between reaches the port in between. */
  lemma NoNewDataWhileSuspended(states: seq<Stream>, actions: seq<Action>, i: nat)
    requires IsRun(states, actions) && i < |states|
    ensures states[i].suspended ==> states[i].core.state == Disabled
    ensures forall k :: 0 <= k < |states[i].written| ==>
              var (born, inForce) := states[i].written[k]; born.Some? ==> born != inForce
    ensures states[i].core.rendered <= states[i].core.presented
  {
    RunInv(states, actions, i);
  }

  /** In a suspended step a thread gets to its port section only by being there already. */
  lemma SuspendedStep(s: Stream, a: Action, c: Client)
    requires Inv(s) && Enabled(s, a) && s.suspended && PcOf(Step(s, a), c).WriteData?
    ensures !ActsFor(a, c) && PcOf(s, c) == PcOf(Step(s, a), c)
  {
    if !ActsFor(a, c) {
      OthersStay(s, a, c);
    }
  }

  /** Only a write that was past its check when the suspension was handled reaches the port during it, at most one
      for each thread: a thread at its port section was there all the time and did nothing else. */
  lemma {:induction false} OnlyEarlierWrites(states: seq<Stream>, actions: seq<Action>, c: Client, i: nat, j: nat)
    requires IsRun(states, actions) && i <= j < |states| && PcOf(states[j], c).WriteData?
    requires forall k :: i <= k <= j ==> states[k].suspended
    ensures PcOf(states[i], c) == PcOf(states[j], c)
    ensures forall k :: i <= k < j ==> !ActsFor(actions[k], c)
    decreases j
  {
    if i < j {
      RunInv(states, actions, j - 1);
      assert Enabled(states[j - 1], actions[j - 1]) && states[j] == Step(states[j - 1], actions[j - 1]);
      SuspendedStep(states[j - 1], actions[j - 1], c);
      OnlyEarlierWrites(states, actions, c, i, j - 1);
    }
  }

  lemma Then(states: seq<Stream>, actions: seq<Action>, a: Action) returns (states': seq<Stream>, actions': seq<Action>)
    requires IsRun(states, actions) && Enabled(states[|actions|], a)
    ensures IsRun(states', actions') && actions' == actions + [a]
    ensures states' == states + [Step(states[|actions|], a)] && states'[|actions'|] == Step(states[|actions|], a)
  {
    states', actions' := states + [Step(states[|actions|], a)], actions + [a];
    forall i {:trigger actions'[i]} | 0 <= i < |actions'|
      ensures Enabled(states'[i], actions'[i]) && states'[i + 1] == Step(states'[i], actions'[i])
    {
      assert i < |actions| ==> actions'[i] == actions[i];
    }
  }

  /** Up to the resume of the write: it began while suspended, the suspension is over. */
  lemma BornSuspended() returns (states: seq<Stream>, actions: seq<Action>)
    ensures IsRun(states, actions)
    ensures states[|actions|] == At(Opened(true), 1, WriteResume(Some(1), 10)).(epoch := 1)
  {
    var off, on := Params(Some(true), false, false), Params(Some(false), false, false);
    var s0 := Opened(true);
    var s1 := Step(s0, SetParams(0, off, true));
    var s2 := Step(s1, DoWrite(1, 10));
    var s3 := Step(s2, SetParams(0, on, true));
    states, actions := [s0, s1, s2, s3], [SetParams(0, off, true), DoWrite(1, 10), SetParams(0, on, true)];
  }

  /** A write that begins while suspended can still reach the port after A2dpSuspended=false: the check
      of the state and the resume are two sections, and the parameter may be handled between them. */
  lemma BornSuspendedCanWriteLater() returns (states: seq<Stream>, actions: seq<Action>)
    ensures IsRun(states, actions) && states[|actions|].written == [(Some(1), None)]
  {
    states, actions := BornSuspended();
    states, actions := Then(states, actions, DoWriteResume(1, true));
    states, actions := Then(states, actions, ControlResult(Success));
    states, actions := Then(states, actions, ResumeDone(1));
    states, actions := Then(states, actions, PortWrite(1, true));
  }

  /** A run that starts an A2DP port and begins a write. */
  lemma EarlierWrite() returns (states: seq<Stream>, actions: seq<Action>)
    ensures IsRun(states, actions)
    ensures states[|actions|] == At(Opened(true), 1, WriteData(None, 10)).(core := Core(Started, 0, 0))
  {
    states, actions := [Opened(true)], [];
    states, actions := Then(states, actions, Resume(1, true));
    states, actions := Then(states, actions, ControlResult(Success));
    states, actions := Then(states, actions, ResumeDone(1));
    states, actions := Then(states, actions, DoWrite(1, 10));
  }

  /** Such a write can: its data reaches the port while the stream is suspended. */
  lemma EarlierWriteCanReach() returns (states: seq<Stream>, actions: seq<Action>)
    ensures IsRun(states, actions) && states[|actions|].written == [(None, Some(1))]
  {
    states, actions := EarlierWrite();
    states, actions := Then(states, actions, SetParams(0, Params(Some(true), false, false), false));
    states, actions := Then(states, actions, PortWrite(1, true));
  }

  /** A write of client `c`, begun in the suspension `born`, ran its resume section before step `i`, when that
      suspension was over and the port in standby or started. */
  ghost predicate Resumed(states: seq<Stream>, actions: seq<Action>, i: nat, c: Client, born: Option<nat>)
    requires |states| == |actions| + 1 && i < |states|
  {
    exists k {:trigger actions[k]} :: 0 <= k < i && actions[k].DoWriteResume? && actions[k].c == c
      && PcOf(states[k], c).WriteResume? && PcOf(states[k], c).born == born && born != InForce(states[k])
      && (states[k].core.state == Standby || states[k].core.state == Started)
  }

  predicate PastResume(pc: Pc) {
    (pc.WriteData? || (pc.ResumeWait? && pc.write)) && pc.born.Some?
  }

  /** How a write begun while suspended gets past its resume: by that section, or it was past before. */
  lemma PastResumeStep(s: Stream, a: Action, c: Client)
    requires Inv(s) && Enabled(s, a) && PastResume(PcOf(Step(s, a), c))
    ensures var born := PcOf(Step(s, a), c).born;
            if a.DoWriteResume? && a.c == c then
              && PcOf(s, c).WriteResume? && PcOf(s, c).born == born && born != InForce(s)
              && (s.core.state == Standby || s.core.state == Started)
            else PastResume(PcOf(s, c)) && PcOf(s, c).born == born
  {
    if !ActsFor(a, c) {
      OthersStay(s, a, c);
    }
  }

  lemma {:induction false} PastResumeResumed(states: seq<Stream>, actions: seq<Action>, i: nat, c: Client)
    requires IsRun(states, actions) && i < |states| && PastResume(PcOf(states[i], c))
    ensures Resumed(states, actions, i, c, PcOf(states[i], c).born)
  {
    if i > 0 {
      var s, a := states[i - 1], actions[i - 1];
      RunInv(states, actions, i - 1);
      assert Enabled(s, a) && states[i] == Step(s, a);
      PastResumeStep(s, a, c);
      if !(a.DoWriteResume? && a.c == c) {
        PastResumeResumed(states, actions, i - 1, c);
      }
    }
  }

  /** A write that begins while suspended reaches the port only if its resume section ran after that
      suspension was over. */
  lemma OnlyReleasedWritesReach(states: seq<Stream>, actions: seq<Action>, i: nat)
    requires IsRun(states, actions) && i < |actions| && actions[i].PortWrite?
    requires PcOf(states[i], actions[i].c).WriteData? && PcOf(states[i], actions[i].c).born.Some?
    ensures Resumed(states, actions, i, actions[i].c, PcOf(states[i], actions[i].c).born)
  {
    PastResumeResumed(states, actions, i, actions[i].c);
  }

  // --- which writes can reach the port ---

  lemma FailedNeverWrites(s: Stream, a: Action, c: Client)
    requires Enabled(s, a) && PcOf(s, c) == WriteFailed
    ensures PcOf(Step(s, a), c) == if a == GiveUp(c) then Idle else WriteFailed
  {
    if !ActsFor(a, c) {
      OthersStay(s, a, c);
    }
  }

  /** The steps `actions` can be taken from `s`, and the last of them, before which client `c` never was
      idle, writes its data to the port. */
  ghost predicate Leads(s: Stream, actions: seq<Action>, c: Client)
    decreases |actions|
  {
    && actions != [] && Enabled(s, actions[0])
    && if |actions| == 1 then actions[0].PortWrite? && actions[0].c == c
       else PcOf(Step(s, actions[0]), c) != Idle && Leads(Step(s, actions[0]), actions[1..], c)
  }

  ghost predicate CanReachPort(s: Stream, c: Client) {
    exists actions :: Leads(s, actions, c)
  }

  /** A write whose resume failed does not reach the port in any continuation. */
  lemma {:induction false} FailedNeverReaches(s: Stream, actions: seq<Action>, c: Client)
    requires PcOf(s, c) == WriteFailed
    ensures !Leads(s, actions, c)
    decreases |actions|
  {
    if |actions| > 1 && Enabled(s, actions[0]) && actions[0] != GiveUp(c) {
      FailedNeverWrites(s, actions[0], c);
      FailedNeverReaches(Step(s, actions[0]), actions[1..], c);
    }
  }

  /** A write at its port section takes it. */
  lemma LeadsNow(s: Stream, c: Client)
    requires PcOf(s, c).WriteData?
    ensures Leads(s, [PortWrite(c, true)], c)
  {
  }

  lemma LeadsAfter(s: Stream, a: Action, actions: seq<Action>, c: Client)
    requires Enabled(s, a) && PcOf(Step(s, a), c) != Idle && Leads(Step(s, a), actions, c)
    ensures Leads(s, [a] + actions, c)
  {
    assert ([a] + actions)[1..] == actions;
  }

  /** A write waiting for the start of the port reaches it if the stack starts the port. */
  lemma WaitingReaches(s: Stream, c: Client)
    requires s.owner == Some(c) && s.core.state == Starting && PcOf(s, c).ResumeWait? && PcOf(s, c).write
    ensures CanReachPort(s, c)
  {
    var s1 := Step(s, ControlResult(Success));
    var s2 := Step(s1, ResumeDone(c));
    LeadsNow(s2, c);
    LeadsAfter(s1, ResumeDone(c), [PortWrite(c, true)], c);
    LeadsAfter(s, ControlResult(Success), [ResumeDone(c), PortWrite(c, true)], c);
  }

  /** The resume section of a write decides: after it the write can reach the port exactly when the section
      found the port started, or in standby with the stack taking the request. */
  lemma ResumeDecides(s: Stream, c: Client, hal: bool)
    requires Enabled(s, DoWriteResume(c, hal))
    ensures CanReachPort(Step(s, DoWriteResume(c, hal)), c)
       <==> s.core.state == Started || (s.core.state == Standby && hal)
  {
    var s' := Step(s, DoWriteResume(c, hal));
    if s.core.state == Started {
      LeadsNow(s', c);
    } else if s.core.state == Standby && hal {
      WaitingReaches(s', c);
    } else {
      forall actions ensures !Leads(s', actions, c) {
        FailedNeverReaches(s', actions, c);
      }
    }
  }

  /** In every interleaving: a write can still reach the port after its resume section exactly when that
      found the port started, or in standby with the stack taking the request; so a write begun while
      suspended cannot if that suspension is still in force. */
  lemma SuspendedWriteReaches(states: seq<Stream>, actions: seq<Action>, i: nat)
    requires IsRun(states, actions) && i < |actions| && actions[i].DoWriteResume?
    ensures var s, c := states[i], actions[i].c;
            && (CanReachPort(states[i + 1], c) <==>
                  s.core.state == Started || (s.core.state == Standby && actions[i].hal))
            && (PcOf(s, c).WriteResume? && PcOf(s, c).born.Some? && PcOf(s, c).born == InForce(s) ==>
                  !CanReachPort(states[i + 1], c))
  {
    RunInv(states, actions, i);
    ResumeDecides(states[i], actions[i].c, actions[i].hal);
  }

  // --- the frames presented ---

  /** A step that zeroes the frames presented: closing or exiting, without a suspension in the same
      parameters, finds the port not disabled or just re-enabled by them. */
  predicate Zeroes(s: Stream, a: Action) {
    && a.SetParams? && (a.params.closing || a.params.exiting)
    && !(s.isA2dp && a.params.a2dpSuspended == Some(true))
    && (s.core.state != Disabled || (s.isA2dp && a.params.a2dpSuspended == Some(false)))
  }

  /** The frames a step accounts for. */
  function Accounted(s: Stream, a: Action): nat {
    if a.Account? && PcOf(s, a.c).WriteAccount? then PcOf(s, a.c).frames else 0
  }

  lemma PresentedStep(s: Stream, a: Action)
    requires Enabled(s, a)
    ensures Step(s, a).core.presented == if Zeroes(s, a) then 0 else s.core.presented + Accounted(s, a)
  {
  }

  /** The frames presented fall exactly at such a step, if there were any. */
  lemma PresentedFalls(s: Stream, a: Action)
    requires Enabled(s, a)
    ensures Step(s, a).core.presented < s.core.presented <==> Zeroes(s, a) && s.core.presented > 0
  {
    PresentedStep(s, a);
  }

  /** The frames accounted for by the steps `lo`, ..., `hi - 1` of a run. */
  ghost function FramesIn(states: seq<Stream>, actions: seq<Action>, lo: nat, hi: nat): nat
    requires |states| == |actions| + 1 && lo <= hi <= |actions|
  {
    if lo == hi then 0 else FramesIn(states, actions, lo, hi - 1) + Accounted(states[hi - 1], actions[hi - 1])
  }

  /** What a run does to the frames presented, step by step. */
  ghost predicate Tracks(states: seq<Stream>, actions: seq<Action>) {
    && |states| == |actions| + 1 && states[0].core.presented == 0
    && forall i {:trigger actions[i]} :: 0 <= i < |actions| ==>
         states[i + 1].core.presented
         == if Zeroes(states[i], actions[i]) then 0 else states[i].core.presented + Accounted(states[i], actions[i])
  }

  lemma RunTracks(states: seq<Stream>, actions: seq<Action>)
    requires IsRun(states, actions)
    ensures Tracks(states, actions)
  {
    forall i {:trigger actions[i]} | 0 <= i < |actions|
      ensures states[i + 1].core.presented
           == if Zeroes(states[i], actions[i]) then 0 else states[i].core.presented + Accounted(states[i], actions[i])
    {
      PresentedStep(states[i], actions[i]);
    }
  }

  lemma {:induction false} TracksSince(states: seq<Stream>, actions: seq<Action>, lo: nat, i: nat)
    requires Tracks(states, actions) && lo <= i < |states| && (lo > 0 ==> Zeroes(states[lo - 1], actions[lo - 1]))
    requires forall k {:trigger actions[k]} :: lo <= k < i ==> !Zeroes(states[k], actions[k])
    ensures states[i].core.presented == FramesIn(states, actions, lo, i)
    decreases i
  {
    if i > lo {
      TracksSince(states, actions, lo, i - 1);
    }
  }

  /** In every run the frames presented are those accounted for since the last step that zeroed them, or
      since the stream was opened. */
  lemma PresentedSince(states: seq<Stream>, actions: seq<Action>, lo: nat, i: nat)
    requires IsRun(states, actions) && lo <= i < |states| && (lo > 0 ==> Zeroes(states[lo - 1], actions[lo - 1]))
    requires forall k {:trigger actions[k]} :: lo <= k < i ==> !Zeroes(states[k], actions[k])
    ensures states[i].core.presented == FramesIn(states, actions, lo, i)
  {
    RunTracks(states, actions);
    TracksSince(states, actions, lo, i);
  }

  /** No step before `i` took frames presented away. */
  ghost predicate NoneLost(states: seq<Stream>, actions: seq<Action>, i: nat)
    requires |states| == |actions| + 1 && i < |states|
  {
    forall k {:trigger actions[k]} :: 0 <= k < i && Zeroes(states[k], actions[k]) ==> states[k].core.presented == 0
  }

  lemma {:induction false} TracksTotal(states: seq<Stream>, actions: seq<Action>, i: nat)
    requires Tracks(states, actions) && i < |states|
    ensures states[i].core.presented <= FramesIn(states, actions, 0, i)
    ensures states[i].core.presented == FramesIn(states, actions, 0, i) <==> NoneLost(states, actions, i)
  {
    if i > 0 {
      TracksTotal(states, actions, i - 1);
      assert NoneLost(states, actions, i) <==>
        && NoneLost(states, actions, i - 1)
        && (Zeroes(states[i - 1], actions[i - 1]) ==> states[i - 1].core.presented == 0);
    }
  }

  /** In every run the frames presented are at most all frames ever accounted for, and equal to them, as if
      never reset, exactly when no zeroing step found any. */
  lemma PresentedIsTotal(states: seq<Stream>, actions: seq<Action>, i: nat)
    requires IsRun(states, actions) && i < |states|
    ensures states[i].core.presented <= FramesIn(states, actions, 0, i)
    ensures states[i].core.presented == FramesIn(states, actions, 0, i) <==> NoneLost(states, actions, i)
  {
    RunTracks(states, actions);
    TracksTotal(states, actions, i);
  }

  /** A run that starts the port of a stream that is not A2DP. */
  lemma PortStarted() returns (states: seq<Stream>, actions: seq<Action>)
    ensures IsRun(states, actions) && states[|actions|] == At(Opened(false), 1, Idle).(core := Core(Started, 0, 0))
  {
    states, actions := [Opened(false)], [];
    states, actions := Then(states, actions, Resume(1, true));
    states, actions := Then(states, actions, ControlResult(Success));
    states, actions := Then(states, actions, ResumeDone(1));
  }

  /** Then it writes ten frames. */
  lemma TenWritten() returns (states: seq<Stream>, actions: seq<Action>)
    ensures IsRun(states, actions)
    ensures var s := At(Opened(false), 1, WriteAccount(10));
            states[|actions|] == s.(core := Core(Started, 0, 0), written := [(None, None)])
  {
    states, actions := PortStarted();
    states, actions := Then(states, actions, DoWrite(1, 10));
    states, actions := Then(states, actions, PortWrite(1, true));
  }

  /** A run in which closing takes ten presented frames away. */
  lemma PresentedCanDrop() returns (states: seq<Stream>, actions: seq<Action>)
    ensures IsRun(states, actions) && |actions| > 0
    ensures states[|actions| - 1].core.presented == 10 && states[|actions|].core.presented == 0
  {
    states, actions := TenWritten();
    states, actions := Then(states, actions, Account(1));
    states, actions := Then(states, actions, SetParams(0, Params(None, true, false), true));
  }

  // --- the port's state ---

  /** How the port comes to be starting, started and suspending, and (below) in standby and disabled. */
  lemma PortRuns(s: Stream, a: Action)
    requires Enabled(s, a)
    ensures var x, y := s.core.state, Step(s, a).core.state;
            var suspends := a.SetParams? && s.isA2dp && a.params.a2dpSuspended == Some(true);
            && (x != Started && y == Started <==> x == Starting && a == ControlResult(Success))
            && (x != Starting && y == Starting <==> x == Standby && (a.Resume? || a.DoWriteResume?))
            && (x != Suspending && y == Suspending <==> x == Started && (a.Suspend? || (suspends && a.hal)))
  {
  }

  lemma PortRests(s: Stream, a: Action)
    requires Enabled(s, a)
    ensures var x, y := s.core.state, Step(s, a).core.state;
            var suspends := a.SetParams? && s.isA2dp && a.params.a2dpSuspended == Some(true);
            && (x != Standby && y == Standby <==>
                  || (x == Started && a.ControlResult? && a.status != Failure)
                  || (x == Starting && a.ControlResult? && a.status != Success)
                  || (x == Suspending && a == ControlResult(Success))
                  || (x == Disabled && a.SetParams? && s.isA2dp && a.params.a2dpSuspended == Some(false)
                      && !a.params.closing && !a.params.exiting))
            && (x != Disabled && y == Disabled <==>
                  x != Disabled && (
                    || a.SessionChanged? || a.ParamsDone?
                    || (x == Suspending && a.ControlResult? && a.status != Success)
                    || (suspends && !(x == Started && a.hal))
                    || (a.SetParams? && !suspends && (a.params.closing || a.params.exiting))))
  {
  }

  /** In every run a started port was started by a successful result for a resume, and has been since. */
  lemma {:induction false} StartedSince(states: seq<Stream>, actions: seq<Action>, i: nat) returns (k: nat)
    requires IsRun(states, actions) && i < |states| && states[i].core.state == Started
    ensures k < i && actions[k] == ControlResult(Success) && states[k].core.state == Starting
    ensures forall m :: k < m <= i ==> states[m].core.state == Started
  {
    var s, a := states[i - 1], actions[i - 1];
    assert Enabled(s, a) && states[i] == Step(s, a);
    PortRuns(s, a);
    if s.core.state == Started {
      k := StartedSince(states, actions, i - 1);
    } else {
      k := i - 1;
    }
  }

  /** A section of a write decides on going to the port by finding it started. */
  lemma PortSection(s: Stream, a: Action, c: Client)
    requires Enabled(s, a)
    ensures PcOf(Step(s, a), c).WriteData? <==>
      if !ActsFor(a, c) then PcOf(s, c).WriteData?
      else s.core.state == Started && (a.DoWrite? || a.DoWriteResume? || (a.ResumeDone? && PcOf(s, c).write))
  {
    if !ActsFor(a, c) {
      OthersStay(s, a, c);
    }
  }

  /** In every run a write that goes to the port has found it started in its last section. */
  lemma {:induction false} FoundStarted(states: seq<Stream>, actions: seq<Action>, i: nat, c: Client) returns (k: nat)
    requires IsRun(states, actions) && i < |states| && PcOf(states[i], c).WriteData?
    ensures k < i && states[k].core.state == Started && ActsFor(actions[k], c)
    ensures forall m :: k < m < i ==> !ActsFor(actions[m], c)
  {
    var s, a := states[i - 1], actions[i - 1];
    assert Enabled(s, a) && states[i] == Step(s, a);
    PortSection(s, a, c);
    if ActsFor(a, c) {
      k := i - 1;
    } else {
      k := FoundStarted(states, actions, i - 1, c);
    }
  }

  // --- the frames rendered ---

  /** A step that zeroes the frames rendered: pause or standby of a started port, a suspension, closing and
      exiting. */
  predicate ZeroesRendered(s: Stream, a: Action) {
    || (a.Suspend? && s.core.state == Started)
    || (a.SetParams? && s.isA2dp && a.params.a2dpSuspended == Some(true))
    || Zeroes(s, a)
  }

  lemma RenderedStep(s: Stream, a: Action)
    requires Enabled(s, a)
    ensures Step(s, a).core.rendered == if ZeroesRendered(s, a) then 0 else s.core.rendered + Accounted(s, a)
  {
  }

  ghost predicate TracksRendered(states: seq<Stream>, actions: seq<Action>) {
    && |states| == |actions| + 1 && states[0].core.rendered == 0
    && forall i {:trigger actions[i]} :: 0 <= i < |actions| ==>
         states[i + 1].core.rendered
         == if ZeroesRendered(states[i], actions[i]) then 0
            else states[i].core.rendered + Accounted(states[i], actions[i])
  }

  lemma RunTracksRendered(states: seq<Stream>, actions: seq<Action>)
    requires IsRun(states, actions)
    ensures TracksRendered(states, actions)
  {
    forall i {:trigger actions[i]} | 0 <= i < |actions|
      ensures states[i + 1].core.rendered
           == if ZeroesRendered(states[i], actions[i]) then 0
              else states[i].core.rendered + Accounted(states[i], actions[i])
    {
      RenderedStep(states[i], actions[i]);
    }
  }

  lemma {:induction false} TracksRenderedSince(states: seq<Stream>, actions: seq<Action>, lo: nat, i: nat)
    requires TracksRendered(states, actions) && lo <= i < |states|
    requires lo > 0 ==> ZeroesRendered(states[lo - 1], actions[lo - 1])
    requires forall k {:trigger actions[k]} :: lo <= k < i ==> !ZeroesRendered(states[k], actions[k])
    ensures states[i].core.rendered == FramesIn(states, actions, lo, i)
    decreases i
  {
    if i > lo {
      TracksRenderedSince(states, actions, lo, i - 1);
    }
  }

  /** In every run the frames rendered are those accounted for since the last such step, or since the stream was
      opened. */
  lemma RenderedSince(states: seq<Stream>, actions: seq<Action>, lo: nat, i: nat)
    requires IsRun(states, actions) && lo <= i < |states|
    requires lo > 0 ==> ZeroesRendered(states[lo - 1], actions[lo - 1])
    requires forall k {:trigger actions[k]} :: lo <= k < i ==> !ZeroesRendered(states[k], actions[k])
    ensures states[i].core.rendered == FramesIn(states, actions, lo, i)
  {
    RunTracksRendered(states, actions);
    TracksRenderedSince(states, actions, lo, i);
  }
}

/** The position a stream reports, from what the stack says and what was written. */
module StreamPosition {
  const MIN_DELAY_MS: nat := 50
  const MAX_DELAY_MS: nat := 1000
  const EXTRA_SYNC_MS: nat := 200

  function Minus(a: nat, b: nat): nat {
    if a > b then a - b else 0
  }

  function LatencyMs(fetched: bool, reportNs: nat, framesCount: nat, sampleRate: nat): nat
    requires sampleRate > 0
  {
    var ms := reportNs / 1000000;
    if fetched && MIN_DELAY_MS < ms < MAX_DELAY_MS then ms else framesCount * 1000 / sampleRate + EXTRA_SYNC_MS
  }

  function LatencyFrames(latencyMs: nat, sampleRate: nat): nat {
    latencyMs * sampleRate / 1000
  }

  /** `q` whole times `d` go into `x`. */
  predicate Whole(q: int, d: nat, x: nat) {
    q * d <= x < (q + 1) * d
  }

  lemma Floor(x: nat, d: nat)
    requires d > 0
    ensures Whole(x / d, d, x)
  {
  }

  lemma ReportedIs(reportNs: nat)
    ensures MIN_DELAY_MS < reportNs / 1000000 < MAX_DELAY_MS <==> 51_000_000 <= reportNs < 1_000_000_000
  {
  }

  /** The latency is the reported delay in whole milliseconds if that is above 50 and below 1000. */
  lemma LatencyReported(reportNs: nat, framesCount: nat, sampleRate: nat)
    requires sampleRate > 0 && 51_000_000 <= reportNs < 1_000_000_000
    ensures Whole(LatencyMs(true, reportNs, framesCount, sampleRate), 1_000_000, reportNs)
  {
    ReportedIs(reportNs);
    Floor(reportNs, 1_000_000);
  }

  /** Otherwise it is the whole milliseconds that one buffer takes, and 200 more. */
  lemma LatencyBuffered(fetched: bool, reportNs: nat, framesCount: nat, sampleRate: nat) returns (buffer: nat)
    requires sampleRate > 0 && !(fetched && 51_000_000 <= reportNs < 1_000_000_000)
    ensures Whole(buffer, sampleRate, framesCount * 1000)
    ensures LatencyMs(fetched, reportNs, framesCount, sampleRate) == buffer + 200
  {
    buffer := framesCount * 1000 / sampleRate;
    Floor(framesCount * 1000, sampleRate);
    ReportedIs(reportNs);
  }

  /** The whole frames played in that time. */
  lemma LatencyInFrames(latencyMs: nat, sampleRate: nat)
    ensures Whole(LatencyFrames(latencyMs, sampleRate), 1000, latencyMs * sampleRate)
  {
    Floor(latencyMs * sampleRate, 1000);
  }

  /** Latency and position; `absorbed` is the stack's byte counter, which may have been reset or be
      stale. The position is the number of frames presented, or the stack's count if that is at most one
      latency behind, less one latency; so it lies one to two latencies behind. */
  method CalculateFeedingDelay(presented: nat, frameSize: nat, framesCount: nat, sampleRate: nat,
                               fetched: bool, reportNs: nat, absorbed: nat)
    returns (latencyMs: nat, frames: nat)
    requires frameSize > 0 && sampleRate > 0
    ensures latencyMs == LatencyMs(fetched, reportNs, framesCount, sampleRate)
    ensures var l := LatencyFrames(latencyMs, sampleRate);
            && Minus(presented, 2 * l) <= frames <= Minus(presented, l)
            && (Minus(presented, l) <= absorbed / frameSize <= presented ==> frames == Minus(absorbed / frameSize, l))
            && (presented < absorbed / frameSize || absorbed / frameSize < Minus(presented, l) ==>
                  frames == Minus(presented, l))
  {
    var timestampFetched := false;
    latencyMs := 0;
    if fetched {
      latencyMs := reportNs / 1000000;
      if latencyMs > MIN_DELAY_MS && latencyMs < MAX_DELAY_MS {
        timestampFetched := true;
      }
    }
    if !timestampFetched {
      latencyMs := framesCount * 1000 / sampleRate + EXTRA_SYNC_MS;
    }
    var latencyFrames := latencyMs * sampleRate / 1000;
    frames := absorbed / frameSize;
    if presented < frames {
      frames := presented;
    } else if presented - frames > latencyFrames {
      frames := presented;
    }
    if frames > latencyFrames {
      frames := frames - latencyFrames;
    } else {
      frames := 0;
    }
  }
}

/** The objects themselves: each method is one section, proved to change port state and counters as the
    protocol's step says. */
module AudioStream {
  import opened Wrappers
  import opened StreamProtocol
  import opened AudioParams

  /** The parameters a string sets. */
  function ParamsOf(m: map<string, string>): Params {
    Params(if "A2dpSuspended" in m then Some(m["A2dpSuspended"] == "true") else None,
           "closing" in m && m["closing"] == "true", "exiting" in m && m["exiting"] == "1")
  }

  predicate Plain(s: string) {
    ';' !in s && '=' !in s
  }

  lemma SuspendedIsPlain()
    ensures Plain("A2dpSuspended")
  {
  }

  lemma ClosingIsPlain()
    ensures Plain("closing") && Plain("exiting")
  {
  }

  lemma KeysDiffer()
    ensures "A2dpSuspended" != "closing" && "A2dpSuspended" != "exiting" && "closing" != "exiting"
  {
    assert |"A2dpSuspended"| == 13 && |"closing"| == |"exiting"| == 7;
    assert "closing"[0] == 'c' && "exiting"[0] == 'e';
  }

  /** What a setting at the end of a string comes to: the last setting of a parameter wins, A2dpSuspended and
      closing are set by "true", exiting by "1", and each leaves the others alone. */
  lemma LastSettingCounts(s: string, v: string)
    requires Plain(v)
    ensures var p := ParamsOf(Parse(s));
            && ParamsOf(Parse(s + ";" + ("A2dpSuspended" + "=" + v))) == p.(a2dpSuspended := Some(v == "true"))
            && ParamsOf(Parse(s + ";" + ("closing" + "=" + v))) == p.(closing := v == "true")
            && ParamsOf(Parse(s + ";" + ("exiting" + "=" + v))) == p.(exiting := v == "1")
  {
    SuspendedIsPlain();
    ClosingIsPlain();
    KeysDiffer();
    LastSetting(s, Param("A2dpSuspended", v));
    LastSetting(s, Param("closing", v));
    LastSetting(s, Param("exiting", v));
  }

  /** The same for a setting alone. */
  lemma SettingAlone(v: string)
    requires Plain(v)
    ensures ParamsOf(Parse("A2dpSuspended" + "=" + v)) == Params(Some(v == "true"), false, false)
    ensures ParamsOf(Parse("closing" + "=" + v)) == Params(None, v == "true", false)
    ensures ParamsOf(Parse("exiting" + "=" + v)) == Params(None, false, v == "1")
  {
    SuspendedIsPlain();
    ClosingIsPlain();
    KeysDiffer();
    ParseOne(Param("A2dpSuspended", v));
    ParseOne(Param("closing", v));
    ParseOne(Param("exiting", v));
  }

  /** The string is the setting, or ends in it. */
  ghost predicate LastIs(s: string, key: string, v: string) {
    s == key + "=" + v || exists before: string :: s == before + ";" + (key + "=" + v)
  }

  lemma SuspensionString(s: string, v: string)
    requires Plain(v) && LastIs(s, "A2dpSuspended", v)
    ensures ParamsOf(Parse(s)).a2dpSuspended == Some(v == "true")
  {
    if s == "A2dpSuspended" + "=" + v {
      SettingAlone(v);
    } else {
      var before: string :| s == before + ";" + ("A2dpSuspended" + "=" + v);
      LastSettingCounts(before, v);
    }
  }

  lemma SuspensionStrings(s: string)
    ensures LastIs(s, "A2dpSuspended", "true") ==> ParamsOf(Parse(s)).a2dpSuspended == Some(true)
    ensures LastIs(s, "A2dpSuspended", "false") ==> ParamsOf(Parse(s)).a2dpSuspended == Some(false)
  {
    assert Plain("true") && Plain("false") && |"true"| != |"false"|;
    if LastIs(s, "A2dpSuspended", "true") {
      SuspensionString(s, "true");
    }
    if LastIs(s, "A2dpSuspended", "false") {
      SuspensionString(s, "false");
    }
  }

  class AudioPort {
    var state: PortState

    /** A port that has been set up. */
    constructor ()
      ensures state == Standby
    {
      state := Standby;
    }

    /** Whether the caller must wait for the result. */
    method Start(hal: bool) returns (waits: bool)
      modifies this
      ensures state == (if old(state) == Standby then Starting else old(state))
      ensures waits <==> old(state) == Standby && hal
    {
      if state == Standby {
        state := Starting;
        return hal;
      }
      return false;
    }

    method Suspend(hal: bool) returns (waits: bool)
      modifies this
      ensures state == (if old(state) == Started then Suspending else old(state))
      ensures waits <==> old(state) == Started && hal
    {
      if state == Started {
        state := Suspending;
        return hal;
      }
      return false;
    }

    method Stop()
      modifies this
      ensures state == Disabled
    {
      state := Disabled;
    }

    method SetState(s: PortState)
      modifies this
      ensures state == s
    {
      state := s;
    }

    /** What a wait ends with: the target was reached, or not, by then. */
    method CondwaitState(from: PortState) returns (reached: bool)
      ensures reached <==> (from == Starting && state == Started) || (from == Suspending && state == Standby)
    {
      match from
      case Starting => reached := state != Starting && state == Started;
      case Suspending => reached := state != Suspending && state == Standby;
      case _ => reached := false;
    }

    method ControlResultHandler(status: Status)
      modifies this
      ensures state == ControlResultSection(old(state), status)
    {
      match state
      case Started =>
        if status == Reconfiguration || status == Success {
          state := Standby;
        }
      case Starting =>
        if status == Success {
          state := Started;
        } else {
          state := Standby;
        }
      case Suspending =>
        if status == Success {
          state := Standby;
        } else {
          state := Disabled;
        }
      case _ =>
    }

    method SessionChangedHandler()
      modifies this
      ensures state == Disabled
    {
      state := Disabled;
    }
  }

  class StreamOut {
    const port: AudioPort
    const isA2dp: bool
    var rendered: nat
    var presented: nat

    ghost function Abs(): Core
      reads this, port
    {
      Core(port.state, rendered, presented)
    }

    constructor (isA2dp: bool)
      ensures Abs() == Opened(isA2dp).core && this.isA2dp == isA2dp && fresh(port)
    {
      port := new AudioPort();
      this.isA2dp := isA2dp;
      rendered, presented := 0, 0;
    }

    /** Pause and standby, up to the wait. */
    method OutSuspend(hal: bool) returns (waits: bool, busy: bool)
      modifies this`rendered, port
      ensures Abs() == SuspendSection(old(Abs()))
      ensures waits <==> old(port.state) == Started && hal
      ensures busy <==> old(port.state) == Starting || old(port.state) == Suspending
    {
      if port.state == Started {
        rendered := 0;
        waits := port.Suspend(hal);
        busy := false;
      } else {
        waits, busy := false, port.state == Starting || port.state == Suspending;
      }
    }

    /** Resume, up to the wait. */
    method OutResume(hal: bool) returns (outcome: ResumeOutcome)
      modifies port
      ensures Abs() == ResumeSection(old(Abs())) && outcome == ResumeOutcomeOf(old(port.state), hal)
      ensures outcome == match old(port.state)
                         case Standby => if hal then Waits else Fails(Io)
                         case Starting => Fails(Busy)
                         case Suspending => Fails(Busy)
                         case Disabled => Fails(Invalid)
                         case Started => Ready
    {
      if port.state == Standby {
        var waits := port.Start(hal);
        return if waits then Waits else Fails(Io);
      } else if port.state == Starting || port.state == Suspending {
        return Fails(Busy);
      } else if port.state == Disabled {
        return Fails(Invalid);
      }
      return Ready;
    }

    /** Handling of a parameter string, up to the wait for a suspend. */
    method OutSetParameters(kvpairs: string, hal: bool) returns (params: Params, waits: bool)
      modifies this`rendered, this`presented, port
      ensures params == ParamsOf(Parse(kvpairs))
      ensures waits <==> params.a2dpSuspended == Some(true) && isA2dp && old(port.state) == Started && hal
      ensures isA2dp && LastIs(kvpairs, "A2dpSuspended", "true") ==>
                rendered == 0 && port.state == if waits then Suspending else Disabled
      ensures isA2dp && LastIs(kvpairs, "A2dpSuspended", "false") && !params.closing && !params.exiting ==>
                !waits && port.state == if old(port.state) == Disabled then Standby else old(port.state)
      ensures var section := ParamsSection(old(Abs()), params, isA2dp);
              Abs() == if params.a2dpSuspended == Some(true) && isA2dp && old(port.state) == Started && !hal
                       then ParamsDoneSection(section, params) else section
    {
      SuspensionStrings(kvpairs);
      var m := ParseAudioParams(kvpairs);
      params := ParamsOf(m);
      waits := false;
      if |m| == 0 {
        return;
      }
      if params.a2dpSuspended != None && isA2dp {
        if params.a2dpSuspended.value {
          rendered := 0;
          if port.state == Started {
            waits := port.Suspend(hal);
            if waits {
              return;
            }
            port.SetState(Disabled);
          } else if port.state != Disabled {
            port.Stop();
          }
        } else {
          if port.state == Disabled {
            port.SetState(Standby);
          }
        }
      }
      SetParametersTail(params);
    }

    method OutSetParametersDone(params: Params)
      modifies this`rendered, this`presented, port
      ensures Abs() == ParamsDoneSection(old(Abs()), params) == old(Abs()).(state := Disabled)
    {
      port.SetState(Disabled);
      SetParametersTail(params);
    }

    method SetParametersTail(params: Params)
      modifies this`rendered, this`presented, port
      ensures Abs() == ParamsTail(old(Abs()), params)
    {
      if params.closing {
        if port.state != Disabled {
          rendered, presented := 0, 0;
          port.Stop();
        }
      }
      if params.exiting {
        if port.state != Disabled {
          rendered, presented := 0, 0;
          port.Stop();
        }
      }
    }

    /** The counters after the port took some of the data. */
    method OutWriteAccount(frames: nat)
      modifies this`rendered, this`presented
      ensures Abs() == old(Abs()).(rendered := old(rendered) + frames, presented := old(presented) + frames)
    {
      rendered := rendered + frames;
      presented := presented + frames;
    }
  }
}
