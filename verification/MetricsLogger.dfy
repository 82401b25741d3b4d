/** The logger object of system/common/metrics.cc over its four queues. Every method is proved against
    the state change of the same call in `MetricsSessions`. */
module MetricsLogger {
  import opened Wrappers
  import opened A2dpMetrics
  import opened LeakyBondedQueue
  import opened MetricsSessions

  class A2dpSessionMetrics {
    var audioDuration: int
    var timerMin: int
    var timerMax: int
    var timerAvg: int
    var schedulingCount: int
    var overrunsMax: int
    var overrunsTotal: int
    var underrunsAvg: real
    var underrunsCount: int
    var codecIndex: int
    var offload: bool

    function Abs(): Metrics
      reads this
    {
      Metrics(audioDuration, timerMin, timerMax, timerAvg, schedulingCount, overrunsMax, overrunsTotal,
              underrunsAvg, underrunsCount, codecIndex, offload)
    }

    constructor ()
      ensures Abs() == NOTHING
    {
      audioDuration, timerMin, timerMax, timerAvg, schedulingCount := -1, -1, -1, -1, -1;
      overrunsMax, overrunsTotal, underrunsAvg, underrunsCount, codecIndex, offload := -1, -1, -1.0, -1, -1, false;
    }

    method Clear()
      modifies this
      ensures Abs() == NOTHING
    {
      audioDuration, timerMin, timerMax, timerAvg, schedulingCount := -1, -1, -1, -1, -1;
      overrunsMax, overrunsTotal, underrunsAvg, underrunsCount, codecIndex, offload := -1, -1, -1.0, -1, -1, false;
    }

    method Update(r: Metrics)
      modifies this
      ensures Abs() == A2dpMetrics.Update(old(Abs()), r)
    {
      UpdateDurations(r);
      UpdateAverage(r);
      UpdateOverruns(r);
      UpdateUnderruns(r);
      if codecIndex < 0 {
        codecIndex := r.codecIndex;
      }
      if !offload {
        offload := r.offload;
      }
    }

    method UpdateDurations(r: Metrics)
      modifies this`audioDuration, this`timerMin, this`timerMax
      ensures var m := A2dpMetrics.Update(old(Abs()), r);
              audioDuration == m.audioDuration && timerMin == m.timerMin && timerMax == m.timerMax
    {
      if r.audioDuration >= 0 {
        audioDuration := Max(0, audioDuration);
        audioDuration := audioDuration + r.audioDuration;
      }
      if r.timerMin >= 0 {
        if timerMin < 0 {
          timerMin := r.timerMin;
        } else {
          timerMin := Min(timerMin, r.timerMin);
        }
      }
      if r.timerMax >= 0 {
        timerMax := Max(timerMax, r.timerMax);
      }
    }

    method UpdateAverage(r: Metrics)
      modifies this`timerAvg, this`schedulingCount
      ensures (timerAvg, schedulingCount) == UpdateTimer(old(timerAvg), old(schedulingCount), r)
    {
      if r.timerAvg >= 0 && r.schedulingCount >= 0 {
        if timerAvg < 0 || schedulingCount < 0 {
          timerAvg := r.timerAvg;
          schedulingCount := r.schedulingCount;
        } else {
          timerAvg := CombineAverages(timerAvg, schedulingCount, r.timerAvg, r.schedulingCount);
          schedulingCount := schedulingCount + r.schedulingCount;
        }
      }
    }

    method UpdateOverruns(r: Metrics)
      modifies this`overrunsMax, this`overrunsTotal
      ensures var m := A2dpMetrics.Update(old(Abs()), r);
              overrunsMax == m.overrunsMax && overrunsTotal == m.overrunsTotal
    {
      if r.overrunsMax >= 0 {
        overrunsMax := Max(overrunsMax, r.overrunsMax);
      }
      if r.overrunsTotal >= 0 {
        overrunsTotal := Max(0, overrunsTotal);
        overrunsTotal := overrunsTotal + r.overrunsTotal;
      }
    }

    method UpdateUnderruns(r: Metrics)
      modifies this`underrunsAvg, this`underrunsCount
      ensures (underrunsAvg, underrunsCount) == A2dpMetrics.UpdateUnderruns(old(underrunsAvg), old(underrunsCount), r)
    {
      if r.underrunsAvg >= 0.0 && r.underrunsCount >= 0 {
        if underrunsAvg < 0.0 || underrunsCount < 0 {
          underrunsAvg := r.underrunsAvg;
          underrunsCount := r.underrunsCount;
        } else {
          underrunsAvg := CombineReals(underrunsAvg, underrunsCount, r.underrunsAvg, r.underrunsCount);
          underrunsCount := underrunsCount + r.underrunsCount;
        }
      }
    }
  }

  /** How many items a list takes before it is over capacity. */
  function Room(length: nat, capacity: nat): nat {
    if length <= capacity then capacity + 1 - length else 0
  }

  /** One draining loop of Build: items move to the log's list, in order, until the queue is empty or the list
      over capacity; it never dequeues from an empty queue. */
  method Drain<T>(q: LeakyBondedQueue<T>, list: seq<T>) returns (filled: seq<T>)
    requires q.Valid()
    modifies q
    ensures q.Valid() && list <= filled && filled + q.queue == list + old(q.queue)
    ensures |filled| - |list| == Min(|old(q.queue)|, Room(|list|, q.capacity))
    ensures list == [] ==> q.queue == [] && filled == old(q.queue)
  {
    filled := list;
    var empty := q.Empty();
    while !empty && |filled| <= q.capacity
      invariant q.Valid() && empty == (q.queue == [])
      invariant list <= filled && filled + q.queue == list + old(q.queue)
      invariant |filled| > |list| ==> |filled| <= q.capacity + 1
      decreases |q.queue|
    {
      var front := q.Dequeue();
      filled := filled + [front.item];
      empty := q.Empty();
    }
    assert list == [] ==> list + old(q.queue) == old(q.queue) && filled + [] == filled;
  }

  class BluetoothMetricsLogger {
    var session: Option<Session>
    var startTime: nat
    const metrics: A2dpSessionMetrics
    const sessionQueue: LeakyBondedQueue<Session>
    const pairQueue: LeakyBondedQueue<Pair>
    const wakeQueue: LeakyBondedQueue<Wake>
    const scanQueue: LeakyBondedQueue<Scan>
    /** The log being built; empty but for its counters between dumps. */
    var log: Dump

    ghost predicate Valid()
      reads this, sessionQueue, pairQueue, wakeQueue, scanQueue
    {
      && sessionQueue.Valid() && sessionQueue.capacity == MAX_SESSIONS
      && pairQueue.Valid() && pairQueue.capacity == MAX_PAIRS
      && wakeQueue.Valid() && wakeQueue.capacity == MAX_WAKES
      && scanQueue.Valid() && scanQueue.capacity == MAX_SCANS
      && log.sessions == [] && log.pairs == [] && log.scans == [] && log.wakes == []
    }

    ghost function Abs(): Logger
      reads this, metrics, sessionQueue, pairQueue, wakeQueue, scanQueue
    {
      Logger(session, startTime, metrics.Abs(), sessionQueue.queue, pairQueue.queue, wakeQueue.queue,
             scanQueue.queue, log.numSessions, log.numPairs, log.numWakes, log.numScans)
    }

    constructor ()
      ensures Valid() && Abs() == FRESH
    {
      session, startTime := None, 0;
      metrics := new A2dpSessionMetrics();
      sessionQueue := new LeakyBondedQueue(MAX_SESSIONS);
      pairQueue := new LeakyBondedQueue(MAX_PAIRS);
      wakeQueue := new LeakyBondedQueue(MAX_WAKES);
      scanQueue := new LeakyBondedQueue(MAX_SCANS);
      log := Dump([], [], [], [], 0, 0, 0, 0);
    }

    method LogPairEvent(e: Pair)
      requires Valid()
      modifies this`log, pairQueue
      ensures Valid() && Abs() == Step(old(Abs()), PairCall(e))
    {
      pairQueue.Enqueue(e);
      log := log.(numPairs := log.numPairs + 1);
    }

    method LogWakeEvent(e: Wake)
      requires Valid()
      modifies this`log, wakeQueue
      ensures Valid() && Abs() == Step(old(Abs()), WakeCall(e))
    {
      wakeQueue.Enqueue(e);
      log := log.(numWakes := log.numWakes + 1);
    }

    method LogScanEvent(e: Scan)
      requires Valid()
      modifies this`log, scanQueue
      ensures Valid() && Abs() == Step(old(Abs()), ScanCall(e))
    {
      scanQueue.Enqueue(e);
      log := log.(numScans := log.numScans + 1);
    }

    method LogBluetoothSessionEnd(reason: Reason, timestamp: nat, now: nat)
      requires Valid()
      modifies this`session, this`log, metrics, sessionQueue
      ensures Valid() && Abs() == End(old(Abs()), reason, timestamp, now)
    {
      if session == None {
        return;
      }
      var time := if timestamp == 0 then now else timestamp;
      var duration := ((time - startTime) % CLOCK_RANGE) / 1000;
      sessionQueue.Enqueue(session.value.(duration := duration, reason := reason));
      session := None;
      metrics.Clear();
      log := log.(numSessions := log.numSessions + 1);
    }

    method LogBluetoothSessionStart(tech: Tech, timestamp: nat, now: nat, later: nat)
      requires Valid()
      modifies this`session, this`startTime, this`log, metrics, sessionQueue
      ensures Valid() && Abs() == Start(old(Abs()), tech, timestamp, now, later)
    {
      if session != None {
        LogBluetoothSessionEnd(NextStartWithoutEnd, 0, now);
      }
      startTime := if timestamp == 0 then later else timestamp;
      session := Some(Session(tech, 0, UnknownReason, None, None));
    }

    method LogBluetoothSessionDeviceInfo(device: Device, now: nat)
      requires Valid()
      modifies this`session, this`startTime, this`log, metrics, sessionQueue
      ensures Valid() && Abs() == SetDevice(old(Abs()), device, now)
    {
      if session == None {
        LogBluetoothSessionStart(UnknownTech, 0, now, now);
      }
      session := Some(session.value.(device := Some(device)));
    }

    method LogA2dpSession(report: Metrics, now: nat)
      requires Valid()
      modifies this`session, this`startTime, this`log, metrics, sessionQueue
      ensures Valid() && Abs() == LogA2dp(old(Abs()), report, now)
    {
      if session == None {
        LogBluetoothSessionStart(BrEdr, 0, now, now);
        LogBluetoothSessionDeviceInfo(AUDIO_DEVICE, now);
      }
      metrics.Update(report);
      session := Some(session.value.(a2dp := Some(Summary(metrics.Abs()))));
    }

    method CutoffSession(now: nat, later: nat)
      requires Valid()
      modifies this`session, this`startTime, this`log, metrics, sessionQueue
      ensures Valid() && Abs() == Cutoff(old(Abs()), now, later)
    {
      if session != None {
        var copy := session.value.(a2dp := None);
        LogBluetoothSessionEnd(MetricsDump, 0, now);
        session := Some(copy);
        startTime := later;
        metrics.Clear();
      }
    }

    /** Fills the log from the four queues and leaves them empty, so that the guard of the last loop,
        which asks the session queue again, is false. */
    method Build(now: nat, later: nat)
      requires Valid()
      modifies this`session, this`startTime, this`log, metrics, sessionQueue, pairQueue, wakeQueue, scanQueue
      ensures var st := Cutoff(old(Abs()), now, later);
              && log == DumpOf(st)
              && Abs() == st.(sessions := [], pairs := [], wakes := [], scans := [])
      ensures sessionQueue.Valid() && pairQueue.Valid() && wakeQueue.Valid() && scanQueue.Valid()
    {
      CutoffSession(now, later);
      var sessions := Drain(sessionQueue, log.sessions);
      var pairs := Drain(pairQueue, log.pairs);
      var scans := Drain(scanQueue, log.scans);
      var wakes := Drain(wakeQueue, log.wakes);
      log := log.(sessions := sessions, pairs := pairs, scans := scans, wakes := wakes);
      var empty := sessionQueue.Empty();
      assert empty;
    }

    /** The dump is what is serialized; the log is cleared afterwards. */
    method WriteString(now: nat, later: nat) returns (dump: Dump)
      requires Valid()
      modifies this`session, this`startTime, this`log, metrics, sessionQueue, pairQueue, wakeQueue, scanQueue
      ensures Valid() && Abs() == Step(old(Abs()), DumpCall(now, later))
      ensures dump == DumpOf(Cutoff(old(Abs()), now, later))
    {
      Build(now, later);
      dump := log;
      log := Dump([], [], [], [], 0, 0, 0, 0);
    }

    method Reset()
      requires Valid()
      modifies this`session, this`startTime, this`log, metrics, sessionQueue, pairQueue, wakeQueue, scanQueue
      ensures Valid() && Abs() == FRESH
    {
      session := None;
      startTime := 0;
      metrics.Clear();
      log := Dump([], [], [], [], 0, 0, 0, 0);
      sessionQueue.Clear();
      pairQueue.Clear();
      wakeQueue.Clear();
      scanQueue.Clear();
    }
  }
}
