/** What the threads of an output stream do to each other, over every interleaving: who holds the stream's mutex while
    waiting for the stack, and which frames a finished write accounts for. */
module StreamThreads {
  import opened Wrappers
  import opened StreamProtocol

  /** Waiting inside a section, the mutex held. */
  predicate Waiting(pc: Pc) {
    pc.ResumeWait? || pc.SuspendWait? || pc.ParamsWait?
  }

  /** A call waits for the stack exactly when it made a request the stack took: a start from standby, or a suspend of
      a started port. */
  lemma WaitsExactly(s: Stream, a: Action, c: Client)
    requires Enabled(s, a) && ActsFor(a, c)
    ensures Waiting(PcOf(Step(s, a), c)) <==>
      || ((a.Resume? || a.DoWriteResume?) && s.core.state == Standby && a.hal)
      || (a.Suspend? && s.core.state == Started && a.hal)
      || (a.SetParams? && s.isA2dp && a.params.a2dpSuspended == Some(true) && s.core.state == Started && a.hal)
  {
  }

  /** The mutex is held across steps by exactly the thread that waits. */
  ghost predicate LockHeld(s: Stream) {
    forall c: Client :: Waiting(PcOf(s, c)) <==> s.owner == Some(c)
  }

  lemma OwnerAfter(s: Stream, a: Action)
    requires Enabled(s, a)
    ensures if a.ControlResult? || a.SessionChanged? || a.PortWrite? || a.GiveUp? then Step(s, a).owner == s.owner
            else Step(s, a).owner == if Waiting(PcOf(Step(s, a), a.c)) then Some(a.c) else None
  {
    if a.Suspend? || a.SetParams? {
      assert !Waiting(PcOf(s, a.c)) && s.owner == None;
    }
  }

  lemma StepLockHeld(s: Stream, a: Action)
    requires LockHeld(s) && Enabled(s, a)
    ensures LockHeld(Step(s, a))
  {
    OwnerAfter(s, a);
    forall c: Client ensures Waiting(PcOf(Step(s, a), c)) <==> Step(s, a).owner == Some(c) {
      assert Waiting(PcOf(s, c)) <==> s.owner == Some(c);
      if ActsFor(a, c) {
        WaitsExactly(s, a, c);
      } else {
        OthersStay(s, a, c);
      }
    }
  }

  /** In every run at most one thread waits for the stack, and it holds the mutex, so that no other section runs until
      it is done. */
  lemma {:induction false} RunLockHeld(states: seq<Stream>, actions: seq<Action>, i: nat)
    requires IsRun(states, actions) && i < |states|
    ensures LockHeld(states[i])
  {
    if i > 0 {
      RunLockHeld(states, actions, i - 1);
      assert Enabled(states[i - 1], actions[i - 1]) && states[i] == Step(states[i - 1], actions[i - 1]);
      StepLockHeld(states[i - 1], actions[i - 1]);
    }
  }

  // --- the frames of a write ---

  /** The frames a write in progress was asked to write. */
  function FramesOf(pc: Pc): Option<nat> {
    match pc
    case WriteResume(_, frames) => Some(frames)
    case ResumeWait(write, _, frames) => if write then Some(frames) else None
    case WriteData(_, frames) => Some(frames)
    case WriteAccount(frames) => Some(frames)
    case _ => None
  }

  lemma FramesStep(s: Stream, a: Action, c: Client)
    requires Enabled(s, a) && FramesOf(PcOf(Step(s, a), c)).Some?
    ensures FramesOf(PcOf(Step(s, a), c)) == if a.DoWrite? && a.c == c then Some(a.frames) else FramesOf(PcOf(s, c))
  {
    if !ActsFor(a, c) {
      OthersStay(s, a, c);
    }
  }

  /** In every run a write in progress carries the frames its call asked for. */
  lemma {:induction false} FramesAsked(states: seq<Stream>, actions: seq<Action>, i: nat, c: Client) returns (k: nat)
    requires IsRun(states, actions) && i < |states| && FramesOf(PcOf(states[i], c)).Some?
    ensures k < i && actions[k] == DoWrite(c, FramesOf(PcOf(states[i], c)).value)
    ensures forall m :: k < m < i ==> !(actions[m].DoWrite? && actions[m].c == c)
  {
    var s, a := states[i - 1], actions[i - 1];
    assert Enabled(s, a) && states[i] == Step(s, a);
    FramesStep(s, a, c);
    if a.DoWrite? && a.c == c {
      k := i - 1;
    } else {
      k := FramesAsked(states, actions, i - 1, c);
    }
  }

  /** Data reaching the port is accounted for exactly when the port took some, with the frames the call asked for. */
  lemma TakenIsAccounted(states: seq<Stream>, actions: seq<Action>, i: nat) returns (k: nat)
    requires IsRun(states, actions) && i < |actions| && actions[i].PortWrite?
    ensures k < i && actions[k].DoWrite? && actions[k].c == actions[i].c
    ensures PcOf(states[i + 1], actions[i].c) == if actions[i].taken then WriteAccount(actions[k].frames) else Idle
  {
    k := FramesAsked(states, actions, i, actions[i].c);
  }
}
