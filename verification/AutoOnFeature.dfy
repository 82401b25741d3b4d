/** The auto-on timer of service/src/AutoOnFeature.kt: a target kept in settings, an alarm and a
    broadcast receiver, driven by entry points, alarms, broadcasts and process restarts. */
module AutoOnTimer {
  import opened Wrappers

  type User = nat

  /** Times are local date-times in nanoseconds. */
  const HOUR: int := 3_600_000_000_000
  const DAY: int := 24 * HOUR

  /** Five in the morning of the next day. */
  function NextTimeout(now: int): int {
    (now / DAY) * DAY + 5 * HOUR + DAY
  }

  /** A new target is tomorrow at five: more than 5 and at most 29 hours ahead. */
  lemma NextTimeoutIsTomorrow(now: int)
    ensures 5 * HOUR < NextTimeout(now) - now <= 29 * HOUR
    ensures NextTimeout(now) % DAY == 5 * HOUR && NextTimeout(now) / DAY == now / DAY + 1
  {
  }

  /** `serial` tells apart targets that were computed separately, even for the same time. */
  datatype Target = Target(time: int, serial: nat)

  datatype Timer = Timer(user: User, target: Target)

  /** A Timer object, its receiver and its alarm share a name. */
  type Id = nat

  /** Settings and stored targets persist; the rest belongs to the process. `fired` are the serials of the
      targets the callback was called for; `fault` records the unregistering of an unknown receiver. */
  datatype State = State(
    settings: map<User, bool>, storage: map<User, Target>,
    timer: Option<Id>, timers: seq<Timer>, alarms: set<Id>, receivers: set<Id>,
    serial: nat, fired: seq<nat>, fault: bool)

  /** What a call finds around it. */
  datatype Env = Env(now: int, bluetoothOn: bool, satellite: bool, airplane: bool, toggledAirplane: bool)

  function Installed(settings: map<User, bool>): State {
    State(settings, map[], None, [], {}, {}, 0, [], false)
  }

  predicate Supported(s: State, u: User) {
    u in s.settings
  }

  predicate EnabledFor(s: State, u: User) {
    u in s.settings && s.settings[u]
  }

  // --- the timer object ---

  function PauseTimer(s: State, id: Id): State {
    s.(receivers := s.receivers - {id}, alarms := s.alarms - {id}, fault := s.fault || id !in s.receivers)
  }

  function CancelTimer(s: State, id: Id): State
    requires id < |s.timers|
  {
    var s1 := PauseTimer(s, id);
    s1.(storage := s1.storage - {s.timers[id].user})
  }

  /** The stored target, or a new one for tomorrow. */
  function TargetFor(s: State, u: User, now: int): Target {
    if u in s.storage then s.storage[u] else Target(NextTimeout(now), s.serial)
  }

  function StartTimer(s: State, u: User, now: int): State {
    var target := TargetFor(s, u, now);
    var s1 := s.(serial := s.serial + 1);
    if target.time - now < 0 then s1.(fired := s.fired + [target.serial], storage := s.storage - {u}, timer := None)
    else
      var id := |s.timers|;
      s1.(storage := s.storage[u := target], timers := s.timers + [Timer(u, target)],
          alarms := s.alarms + {id}, receivers := s.receivers + {id}, timer := Some(id))
  }

  // --- the entry points ---

  function Cancelled(s: State): State {
    (if s.timer.Some? && s.timer.value < |s.timers| then CancelTimer(s, s.timer.value) else s).(timer := None)
  }

  predicate MayStart(s: State, u: User, env: Env) {
    EnabledFor(s, u) && !env.bluetoothOn && !env.satellite && (env.airplane ==> env.toggledAirplane)
  }

  function Reset(s: State, u: User, env: Env): State {
    var s1 := Cancelled(s);
    if MayStart(s1, u, env) then StartTimer(s1, u, env.now) else s1
  }

  function Pause(s: State): State {
    (if s.timer.Some? then PauseTimer(s, s.timer.value) else s).(timer := None)
  }

  function NotifyOn(s: State, u: User): State {
    var s1 := Cancelled(s);
    if !Supported(s1, u) then s1.(settings := s1.settings[u := true]) else s1.(storage := s1.storage - {u})
  }

  /** Throws, changing nothing, for a user without the feature. */
  function SetEnabled(s: State, u: User, status: bool, env: Env): State {
    if !Supported(s, u) || (EnabledFor(s, u) && status) then s
    else Reset(s.(settings := s.settings[u := status], storage := s.storage - {u}), u, env)
  }

  datatype Event =
    | ResetCall(u: User, env: Env) | PauseCall | NotifyOnCall(u: User)
    | SetEnabledCall(u: User, status: bool, env: Env)
    | Alarm(id: Id) | Broadcast(id: Id, env: Env) | Restart

  predicate Enabled(s: State, e: Event) {
    match e
    case Alarm(id) => id in s.alarms && id < |s.timers|
    case Broadcast(id, _) => id in s.receivers && id < |s.timers|
    case _ => true
  }

  function Step(s: State, e: Event): State
    requires Enabled(s, e)
  {
    match e
    case ResetCall(u, env) => Reset(s, u, env)
    case PauseCall => Pause(s)
    case NotifyOnCall(u) => NotifyOn(s, u)
    case SetEnabledCall(u, status, env) => SetEnabled(s, u, status, env)
    case Alarm(id) => CancelTimer(s.(fired := s.fired + [s.timers[id].target.serial]), id).(timer := None)
    case Broadcast(id, env) => Reset(Pause(s), s.timers[id].user, env)
    case Restart => s.(timer := None, alarms := {}, receivers := {})
  }

  // --- the invariant ---

  /** A timer owns exactly one alarm and one receiver, and its target is the stored one; without a timer
      there is neither alarm nor receiver. */
  ghost predicate Owned(s: State) {
    match s.timer
    case None => s.alarms == {} && s.receivers == {}
    case Some(id) =>
      && id < |s.timers| && s.alarms == {id} && s.receivers == {id}
      && s.timers[id].user in s.storage && s.storage[s.timers[id].user] == s.timers[id].target
  }

  /** Stored targets are distinct, have not fired, and belong to users with the feature; no target has
      fired twice. */
  ghost predicate FiredOnce(s: State) {
    && (forall i, j :: 0 <= i < j < |s.fired| ==> s.fired[i] != s.fired[j])
    && (forall i :: 0 <= i < |s.fired| ==> s.fired[i] < s.serial)
    && (forall u :: u in s.storage ==>
          u in s.settings && s.storage[u].serial < s.serial && s.storage[u].serial !in s.fired)
    && (forall u, v :: u in s.storage && v in s.storage && s.storage[u].serial == s.storage[v].serial ==> u == v)
  }

  ghost predicate Inv(s: State) {
    Owned(s) && FiredOnce(s) && !s.fault
  }

  lemma CancelledKeeps(s: State)
    requires Inv(s)
    ensures Inv(Cancelled(s))
  {
  }

  lemma StartKeeps(s: State, u: User, now: int)
    requires Inv(s) && s.timer == None && u in s.settings
    ensures Inv(StartTimer(s, u, now))
  {
  }

  lemma ResetKeeps(s: State, u: User, env: Env)
    requires Inv(s)
    ensures Inv(Reset(s, u, env))
  {
    CancelledKeeps(s);
    if MayStart(Cancelled(s), u, env) {
      StartKeeps(Cancelled(s), u, env.now);
    }
  }

  lemma ForgetKeeps(s: State, u: User, status: bool)
    requires Inv(s) && s.timer == None && Supported(s, u)
    ensures Inv(s.(settings := s.settings[u := status], storage := s.storage - {u}))
  {
  }

  lemma ForgetCommutes(s: State, u: User, status: bool)
    ensures Cancelled(s.(settings := s.settings[u := status], storage := s.storage - {u}))
         == Cancelled(s).(settings := s.settings[u := status], storage := Cancelled(s).storage - {u})
  {
    if s.timer.Some? && s.timer.value < |s.timers| {
      var v := s.timers[s.timer.value].user;
      assert s.storage - {u} - {v} == s.storage - {v} - {u};
    }
  }

  /** Changing the setting and forgetting the stored target before the timer is cancelled comes to the
      same as after. */
  lemma ChangedThenCancelled(s: State, u: User, status: bool)
    requires Inv(s) && Supported(s, u)
    ensures var s1 := Cancelled(s.(settings := s.settings[u := status], storage := s.storage - {u}));
            && s1 == Cancelled(s).(settings := s.settings[u := status], storage := Cancelled(s).storage - {u})
            && Inv(s1) && s1.timer == None
  {
    CancelledKeeps(s);
    ForgetCommutes(s, u, status);
    ForgetKeeps(Cancelled(s), u, status);
  }

  lemma SetEnabledKeeps(s: State, u: User, status: bool, env: Env)
    requires Inv(s) && Supported(s, u)
    ensures Inv(Reset(s.(settings := s.settings[u := status], storage := s.storage - {u}), u, env))
  {
    var s0 := s.(settings := s.settings[u := status], storage := s.storage - {u});
    ChangedThenCancelled(s, u, status);
    if MayStart(Cancelled(s0), u, env) {
      StartKeeps(Cancelled(s0), u, env.now);
    }
  }

  lemma StepKeepsInv(s: State, e: Event)
    requires Inv(s) && Enabled(s, e)
    ensures Inv(Step(s, e))
  {
    match e
    case ResetCall(u, env) => ResetKeeps(s, u, env);
    case SetEnabledCall(u, status, env) =>
      if Supported(s, u) {
        SetEnabledKeeps(s, u, status, env);
      }
    case Broadcast(id, env) => ResetKeeps(Pause(s), s.timers[id].user, env);
    case NotifyOnCall(u) => CancelledKeeps(s);
    case _ =>
  }

  // --- every history ---

  ghost predicate IsRun(states: seq<State>, events: seq<Event>) {
    && |states| == |events| + 1 && states[0] == Installed(states[0].settings)
    && forall i {:trigger events[i]} :: 0 <= i < |events| ==>
         Enabled(states[i], events[i]) && states[i + 1] == Step(states[i], events[i])
  }

  /** After every entry point, alarm, broadcast and restart a timer owns exactly one alarm and one
      receiver and its target is stored, no timer means neither, and no target ever fires twice. */
  lemma {:induction false} RunInv(states: seq<State>, events: seq<Event>, i: nat)
    requires IsRun(states, events) && i < |states|
    ensures Owned(states[i]) && FiredOnce(states[i]) && !states[i].fault
  {
    if i > 0 {
      RunInv(states, events, i - 1);
      assert Enabled(states[i - 1], events[i - 1]);
      StepKeepsInv(states[i - 1], events[i - 1]);
    }
  }

  // --- the life of a target ---

  /** The user of the running timer. */
  ghost predicate TimerOf(s: State, u: User) {
    s.timer.Some? && s.timer.value < |s.timers| && s.timers[s.timer.value].user == u
  }

  /** An event that cancels the user's target: a reset of a running timer, a change of the setting, or
      Bluetooth turning on. */
  ghost predicate Cancels(s: State, e: Event, u: User) {
    match e
    case ResetCall(_, _) => TimerOf(s, u)
    case NotifyOnCall(v) => v == u || TimerOf(s, u)
    case SetEnabledCall(v, status, _) =>
      Supported(s, v) && !(EnabledFor(s, v) && status) && (v == u || TimerOf(s, u))
    case _ => false
  }

  ghost predicate Keeps(s: State, s': State, u: User)
    requires u in s.storage
  {
    u in s'.storage && s'.storage[u] == s.storage[u]
  }

  lemma ResetTarget(s: State, v: User, env: Env, u: User)
    requires Inv(s) && u in s.storage
    ensures Keeps(s, Reset(s, v, env), u) <==> s.storage[u].serial !in Reset(s, v, env).fired && !TimerOf(s, u)
  {
    CancelledKeeps(s);
  }

  /** A step leaves a stored target alone unless it fires it or cancels it, and then the target is gone
      for good. */
  lemma TargetFate(s: State, e: Event, u: User)
    requires Inv(s) && Enabled(s, e) && u in s.storage
    ensures Keeps(s, Step(s, e), u) <==> s.storage[u].serial !in Step(s, e).fired && !Cancels(s, e, u)
  {
    match e
    case ResetCall(v, env) => ResetTarget(s, v, env, u);
    case SetEnabledCall(v, status, env) => SetEnabledTarget(s, v, status, env, u);
    case Broadcast(id, env) =>
      StepKeepsInv(s, PauseCall);
      ResetTarget(Pause(s), s.timers[id].user, env, u);
    case _ =>
  }

  /** Starting for a user without a stored target uses a fresh one and touches nobody else's. */
  lemma StartFresh(s: State, v: User, now: int, u: User)
    requires v !in s.storage
    ensures var s' := StartTimer(s, v, now);
            && (s'.fired == s.fired || s'.fired == s.fired + [s.serial])
            && (u in s'.storage && u !in s.storage ==> s'.storage[u].serial == s.serial)
            && (u in s.storage ==> u in s'.storage && s'.storage[u] == s.storage[u])
  {
  }

  lemma SetEnabledTarget(s: State, v: User, status: bool, env: Env, u: User)
    requires Inv(s) && u in s.storage
    ensures var e := SetEnabledCall(v, status, env);
            Keeps(s, Step(s, e), u) <==> s.storage[u].serial !in Step(s, e).fired && !Cancels(s, e, u)
  {
    if Supported(s, v) && !(EnabledFor(s, v) && status) {
      ChangedTarget(s, v, status, u);
      StartFresh(Cancelled(s.(settings := s.settings[v := status], storage := s.storage - {v})), v, env.now, u);
    }
  }

  /** What is stored once the setting has been changed and the timer cancelled. */
  lemma ChangedTarget(s: State, v: User, status: bool, u: User)
    requires Inv(s) && Supported(s, v) && u in s.storage
    ensures var s1 := Cancelled(s.(settings := s.settings[v := status], storage := s.storage - {v}));
            && (u in s1.storage <==> v != u && !TimerOf(s, u)) && (u in s1.storage ==> s1.storage[u] == s.storage[u])
            && v !in s1.storage && s1.fired == s.fired && s1.serial == s.serial
            && s.storage[u].serial < s.serial && s.storage[u].serial !in s.fired
  {
    ChangedThenCancelled(s, v, status);
  }

  /** A target survives any number of pauses, date, time and timezone broadcasts and restarts: it stays
      stored, the same, until it fires or is cancelled. */
  lemma {:induction false} TargetSurvives(states: seq<State>, events: seq<Event>, u: User, i: nat, j: nat)
    requires IsRun(states, events) && i <= j < |states| && u in states[i].storage
    requires forall k {:trigger events[k]} :: i <= k < j ==> !Cancels(states[k], events[k], u)
    ensures states[i].storage[u].serial in states[j].fired || Keeps(states[i], states[j], u)
    decreases j
  {
    if i < j {
      TargetSurvives(states, events, u, i, j - 1);
      RunInv(states, events, j - 1);
      assert Enabled(states[j - 1], events[j - 1]);
      FiredStays(states[j - 1], events[j - 1]);
      if states[i].storage[u].serial !in states[j - 1].fired {
        TargetFate(states[j - 1], events[j - 1], u);
      }
    }
  }

  lemma ResetFired(s: State, u: User, env: Env)
    ensures s.fired <= Reset(s, u, env).fired
  {
    assert Cancelled(s).fired == s.fired;
  }

  lemma FiredStays(s: State, e: Event)
    requires Enabled(s, e)
    ensures s.fired <= Step(s, e).fired
  {
    match e
    case ResetCall(u, env) => ResetFired(s, u, env);
    case SetEnabledCall(u, status, env) =>
      ResetFired(s.(settings := s.settings[u := status], storage := s.storage - {u}), u, env);
    case Broadcast(id, env) => ResetFired(Pause(s), s.timers[id].user, env);
    case _ =>
  }

  // --- when a timer is armed, and for what ---

  /** Tomorrow at five. */
  function Tomorrow(now: int): int {
    (now / DAY + 1) * DAY + 5 * HOUR
  }

  /** The state holds exactly what arming for user `u` and time `time` leaves: the target fired at once if it is in
      the past, else a timer for it. */
  ghost predicate Armed(s: State, s': State, u: User, time: int, now: int) {
    if time < now then s'.timer == None && |s'.fired| == |s.fired| + 1 && u !in s'.storage
    else
      && s'.fired == s.fired && s'.timer.Some? && s'.timer.value < |s'.timers|
      && s'.timers[s'.timer.value].user == u && s'.timers[s'.timer.value].target.time == time
      && u in s'.storage && s'.storage[u].time == time
  }

  lemma StartArms(s: State, u: User, now: int)
    ensures Armed(s, StartTimer(s, u, now), u, if u in s.storage then s.storage[u].time else Tomorrow(now), now)
  {
    assert NextTimeout(now) == Tomorrow(now);
  }

  /** A reset arms a timer, or fires, exactly when the user has the feature on, Bluetooth and satellite mode are off,
      and airplane mode is off or was toggled by the user before; else it leaves no timer. It arms the stored target
      unless the running timer was that user's, and tomorrow at five otherwise. */
  lemma ResetArms(s: State, u: User, env: Env)
    requires Inv(s)
    ensures var s' := Reset(s, u, env);
            if u in s.settings && s.settings[u] && !env.bluetoothOn && !env.satellite
               && (env.airplane ==> env.toggledAirplane)
            then
              var stored := u in s.storage && !TimerOf(s, u);
              Armed(s, s', u, if stored then s.storage[u].time else Tomorrow(env.now), env.now)
            else s'.timer == None && s'.fired == s.fired
  {
    var s1 := Cancelled(s);
    StartArms(s1, u, env.now);
    assert u in s1.storage <==> u in s.storage && !TimerOf(s, u);
  }

  /** A date, time or timezone broadcast arms the target of the running timer again, under the same conditions. */
  lemma BroadcastRearms(s: State, id: Id, env: Env)
    requires Inv(s) && Enabled(s, Broadcast(id, env))
    ensures var u, s' := s.timers[id].user, Step(s, Broadcast(id, env));
            if u in s.settings && s.settings[u] && !env.bluetoothOn && !env.satellite
               && (env.airplane ==> env.toggledAirplane)
            then Armed(s, s', u, s.timers[id].target.time, env.now)
            else s'.timer == None && s'.fired == s.fired && u in s'.storage && s'.storage[u] == s.timers[id].target
  {
    StepKeepsInv(s, PauseCall);
    assert s.timer == Some(id);
    ResetArms(Pause(s), s.timers[id].user, env);
  }

  /** Changing the setting arms tomorrow at five under the same conditions, if it was switched on. */
  lemma SetEnabledArms(s: State, u: User, status: bool, env: Env)
    requires Inv(s) && u in s.settings && !(s.settings[u] && status)
    ensures var s' := Step(s, SetEnabledCall(u, status, env));
            if status && !env.bluetoothOn && !env.satellite && (env.airplane ==> env.toggledAirplane)
            then Armed(s, s', u, Tomorrow(env.now), env.now)
            else s'.timer == None && s'.fired == s.fired && u !in s'.storage
  {
    ChangedThenCancelled(s, u, status);
    StartArms(Cancelled(s.(settings := s.settings[u := status], storage := s.storage - {u})), u, env.now);
  }

  /** The setting of a user: given by the last accepted change, or on by default when Bluetooth first turned on. */
  lemma SettingIs(s: State, e: Event, u: User)
    requires Enabled(s, e)
    ensures u in Step(s, e).settings <==> u in s.settings || e == NotifyOnCall(u)
    ensures u in Step(s, e).settings ==>
              Step(s, e).settings[u] == if u !in s.settings then true
                                        else if e.SetEnabledCall? && e.u == u then e.status
                                        else s.settings[u]
  {
    match e
    case ResetCall(v, env) => ResetSettings(s, v, env);
    case Broadcast(id, env) => ResetSettings(Pause(s), s.timers[id].user, env);
    case SetEnabledCall(v, status, env) =>
      ResetSettings(s.(settings := s.settings[v := status], storage := s.storage - {v}), v, env);
    case NotifyOnCall(v) => assert Cancelled(s).settings == s.settings;
    case _ =>
  }

  lemma ResetSettings(s: State, u: User, env: Env)
    ensures Reset(s, u, env).settings == s.settings
  {
    assert Cancelled(s).settings == s.settings;
  }

  /** Bluetooth turning on leaves no stored target behind. */
  lemma NotifyOnClears(s: State, u: User)
    requires Inv(s)
    ensures u !in NotifyOn(s, u).storage && NotifyOn(s, u).timer == None
  {
    CancelledKeeps(s);
  }
}

/** The feature's globals, the system services it registers with and the settings it writes. */
module AutoOnFeature {
  import opened Wrappers
  import opened AutoOnTimer

  class AutoOnFeature {
    var settings: map<User, bool>
    var storage: map<User, Target>
    var timer: Option<Id>
    var timers: seq<Timer>
    var alarms: set<Id>
    var receivers: set<Id>
    var serial: nat
    var fired: seq<nat>
    var fault: bool

    ghost function Abs(): State
      reads this
    {
      State(settings, storage, timer, timers, alarms, receivers, serial, fired, fault)
    }

    constructor (settings: map<User, bool>)
      ensures Abs() == Installed(settings)
    {
      this.settings := settings;
      storage, timer, timers, alarms, receivers, serial, fired, fault := map[], None, [], {}, {}, 0, [], false;
    }

    /** Timer.pause: the receiver is unregistered and the alarm dropped; the target stays stored. */
    method TimerPause(id: Id)
      modifies this`receivers, this`alarms, this`fault
      ensures Abs() == PauseTimer(old(Abs()), id)
    {
      fault := fault || id !in receivers;
      receivers := receivers - {id};
      alarms := alarms - {id};
    }

    /** Timer.cancel: pause, and the target is forgotten. */
    method TimerCancel(id: Id)
      requires id < |timers|
      modifies this`receivers, this`alarms, this`fault, this`storage
      ensures Abs() == CancelTimer(old(Abs()), id)
    {
      TimerPause(id);
      storage := storage - {timers[id].user};
    }

    /** Timer.start: fires at once for a target in the past, else arms alarm and receiver. */
    method TimerStart(u: User, now: int)
      modifies this
      ensures Abs() == StartTimer(old(Abs()), u, now)
    {
      var target := if u in storage then storage[u] else Target(NextTimeout(now), serial);
      serial := serial + 1;
      var timeToSleep := target.time - now;
      if timeToSleep < 0 {
        fired := fired + [target.serial];
        storage := storage - {u};
        timer := None;
        return;
      }
      var id := |timers|;
      timers := timers + [Timer(u, target)];
      storage := storage[u := target];
      alarms := alarms + {id};
      receivers := receivers + {id};
      timer := Some(id);
    }

    method CancelCurrent()
      requires timer.Some? ==> timer.value < |timers|
      modifies this
      ensures Abs() == Cancelled(old(Abs()))
    {
      if timer != None {
        TimerCancel(timer.value);
      }
      timer := None;
    }

    method ResetAutoOnTimerForUser(u: User, env: Env)
      requires timer.Some? ==> timer.value < |timers|
      modifies this
      ensures Abs() == Reset(old(Abs()), u, env)
    {
      CancelCurrent();
      if !(u in settings && settings[u]) {
        return;
      }
      if env.bluetoothOn {
        return;
      }
      if env.satellite {
        return;
      }
      if env.airplane {
        if !env.toggledAirplane {
          return;
        }
      }
      TimerStart(u, env.now);
    }

    method Pause()
      modifies this
      ensures Abs() == AutoOnTimer.Pause(old(Abs()))
    {
      if timer != None {
        TimerPause(timer.value);
      }
      timer := None;
    }

    method NotifyBluetoothOn(u: User)
      requires timer.Some? ==> timer.value < |timers|
      modifies this
      ensures Abs() == NotifyOn(old(Abs()), u)
    {
      CancelCurrent();
      if u !in settings {
        settings := settings[u := true];
      } else {
        storage := storage - {u};
      }
    }

    /** `accepted` is false when the call throws. */
    method SetUserEnabled(u: User, status: bool, env: Env) returns (accepted: bool)
      requires timer.Some? ==> timer.value < |timers|
      modifies this
      ensures Abs() == SetEnabled(old(Abs()), u, status, env) && accepted == (u in old(settings))
    {
      if u !in settings {
        return false;
      }
      if settings[u] && status {
        return true;
      }
      settings := settings[u := status];
      storage := storage - {u};
      ResetAutoOnTimerForUser(u, env);
      return true;
    }

    method OnAlarm(id: Id)
      requires Enabled(Abs(), Alarm(id))
      modifies this
      ensures Abs() == Step(old(Abs()), Alarm(id))
    {
      fired := fired + [timers[id].target.serial];
      TimerCancel(id);
      timer := None;
    }

    method OnReceive(id: Id, env: Env)
      requires Enabled(Abs(), Broadcast(id, env))
      modifies this
      ensures Abs() == Step(old(Abs()), Broadcast(id, env))
    {
      var u := timers[id].user;
      Pause();
      ResetAutoOnTimerForUser(u, env);
    }
  }
}
