/** What the metrics logger of system/common/metrics.cc does to its sessions, queues and counters, and
    what any sequence of calls between two resets keeps. */
module MetricsSessions {
  import opened Wrappers
  import opened A2dpMetrics
  import opened LeakyBondedQueue

  const MAX_SESSIONS: nat := 50
  const MAX_PAIRS: nat := 50
  const MAX_WAKES: nat := 1000
  const MAX_SCANS: nat := 50
  const CLOCK_RANGE: int := 0x1_0000_0000_0000_0000

  datatype Tech = UnknownTech | Le | BrEdr
  datatype Reason = UnknownReason | MetricsDump | NextStartWithoutEnd
  datatype Device = Device(deviceClass: nat, deviceType: nat)
  datatype Pair = Pair(reason: nat, time: nat, device: Device)
  datatype Wake = Wake(kind: nat, requestor: string, name: string, time: nat)
  datatype Scan = Scan(start: bool, initiator: string, tech: nat, results: nat, time: nat)

  /** The A2DP part of a session: the accumulated metrics but for the scheduling count. */
  datatype A2dpSession = A2dpSession(
    audioDuration: int, timerMin: int, timerMax: int, timerAvg: int, overrunsMax: int, overrunsTotal: int,
    underrunsAvg: real, underrunsCount: int, codecIndex: int, offload: bool)

  function Summary(m: Metrics): A2dpSession {
    A2dpSession(m.audioDuration, m.timerMin, m.timerMax, m.timerAvg, m.overrunsMax, m.overrunsTotal,
                m.underrunsAvg, m.underrunsCount, m.codecIndex, m.offload)
  }

  datatype Session = Session(
    tech: Tech, duration: int, reason: Reason, device: Option<Device>, a2dp: Option<A2dpSession>)

  /** The open session, the accumulated metrics, the four queues and the four event counters. */
  datatype Logger = Logger(
    session: Option<Session>, startTime: nat, metrics: Metrics,
    sessions: seq<Session>, pairs: seq<Pair>, wakes: seq<Wake>, scans: seq<Scan>,
    numSessions: nat, numPairs: nat, numWakes: nat, numScans: nat)

  const FRESH: Logger := Logger(None, 0, NOTHING, [], [], [], [], 0, 0, 0, 0)

  datatype Dump = Dump(
    sessions: seq<Session>, pairs: seq<Pair>, scans: seq<Scan>, wakes: seq<Wake>,
    numSessions: nat, numPairs: nat, numWakes: nat, numScans: nat)

  ghost predicate Bounded(st: Logger) {
    && |st.sessions| <= MAX_SESSIONS && |st.pairs| <= MAX_PAIRS
    && |st.wakes| <= MAX_WAKES && |st.scans| <= MAX_SCANS
  }

  // --- the calls; `now` and `later` are the boot-time clock where a call reads it ---

  function TimeOr(timestamp: nat, now: nat): nat {
    if timestamp == 0 then now else timestamp
  }

  /** The open session as it is queued. */
  function Closed(s: Session, startTime: nat, reason: Reason, time: nat): Session {
    s.(duration := ((time - startTime) % CLOCK_RANGE) / 1000, reason := reason)
  }

  function End(st: Logger, reason: Reason, timestamp: nat, now: nat): Logger
  {
    if st.session.None? then st
    else
      var closed := Closed(st.session.value, st.startTime, reason, TimeOr(timestamp, now));
      st.(session := None, metrics := NOTHING, sessions := Push(st.sessions, MAX_SESSIONS, closed),
          numSessions := st.numSessions + 1)
  }

  function Start(st: Logger, tech: Tech, timestamp: nat, now: nat, later: nat): Logger
  {
    End(st, NextStartWithoutEnd, 0, now).(
      session := Some(Session(tech, 0, UnknownReason, None, None)), startTime := TimeOr(timestamp, later))
  }

  function SetDevice(st: Logger, device: Device, now: nat): Logger
  {
    var st1 := if st.session.None? then Start(st, UnknownTech, 0, now, now) else st;
    st1.(session := Some(st1.session.value.(device := Some(device))))
  }

  const AUDIO_DEVICE: Device := Device(0x04, 1)

  function LogA2dp(st: Logger, report: Metrics, now: nat): Logger
  {
    var st1 := if st.session.None? then SetDevice(Start(st, BrEdr, 0, now, now), AUDIO_DEVICE, now) else st;
    var m := Update(st1.metrics, report);
    st1.(metrics := m, session := Some(st1.session.value.(a2dp := Some(Summary(m)))))
  }

  function Cutoff(st: Logger, now: nat, later: nat): Logger
  {
    if st.session.None? then st
    else
      End(st, MetricsDump, 0, now).(
        session := Some(st.session.value.(a2dp := None)), startTime := later, metrics := NOTHING)
  }

  function Drained(st: Logger): Logger {
    st.(sessions := [], pairs := [], wakes := [], scans := [],
        numSessions := 0, numPairs := 0, numWakes := 0, numScans := 0)
  }

  function DumpOf(st: Logger): Dump {
    Dump(st.sessions, st.pairs, st.scans, st.wakes, st.numSessions, st.numPairs, st.numWakes, st.numScans)
  }

  datatype Call =
    | PairCall(pair: Pair) | WakeCall(wake: Wake) | ScanCall(scan: Scan)
    | StartCall(tech: Tech, timestamp: nat, now: nat, later: nat)
    | EndCall(reason: Reason, timestamp: nat, now: nat)
    | DeviceCall(device: Device, now: nat)
    | A2dpCall(report: Metrics, now: nat)
    | DumpCall(now: nat, later: nat)

  function Step(st: Logger, call: Call): Logger
  {
    match call
    case PairCall(e) => st.(pairs := Push(st.pairs, MAX_PAIRS, e), numPairs := st.numPairs + 1)
    case WakeCall(e) => st.(wakes := Push(st.wakes, MAX_WAKES, e), numWakes := st.numWakes + 1)
    case ScanCall(e) => st.(scans := Push(st.scans, MAX_SCANS, e), numScans := st.numScans + 1)
    case StartCall(tech, timestamp, now, later) => Start(st, tech, timestamp, now, later)
    case EndCall(reason, timestamp, now) => End(st, reason, timestamp, now)
    case DeviceCall(device, now) => SetDevice(st, device, now)
    case A2dpCall(report, now) => LogA2dp(st, report, now)
    case DumpCall(now, later) => Drained(Cutoff(st, now, later))
  }

  /** The session a call closes, if any. */
  function ClosedBy(st: Logger, call: Call): Option<Session> {
    if st.session.None? then None
    else
      var s := st.session.value;
      match call
      case StartCall(_, _, now, _) => Some(Closed(s, st.startTime, NextStartWithoutEnd, now))
      case EndCall(reason, timestamp, now) => Some(Closed(s, st.startTime, reason, TimeOr(timestamp, now)))
      case DumpCall(now, _) => Some(Closed(s, st.startTime, MetricsDump, now))
      case _ => None
  }

  function AsSeq<T>(o: Option<T>): seq<T> {
    if o.Some? then [o.value] else []
  }

  // --- histories ---

  /** What an observer of all calls keeps: the events and closed sessions since the last dump, every
      session closed with the reports that went into it, the reports of the open session, all reports,
      and the sessions that leaked or were dumped. */
  datatype Past = Past(
    pairs: seq<Pair>, wakes: seq<Wake>, scans: seq<Scan>, sessions: seq<Session>,
    closed: seq<Session>, closedReports: seq<seq<Metrics>>, openReports: seq<Metrics>, reports: seq<Metrics>,
    leaked: seq<Session>, dumped: seq<Session>)

  const NO_PAST: Past := Past([], [], [], [], [], [], [], [], [], [])

  function Close(p: Past, st: Logger, s: Session): Past {
    p.(sessions := p.sessions + [s], closed := p.closed + [s], closedReports := p.closedReports + [p.openReports],
       openReports := [], leaked := p.leaked + Leaked(st.sessions, MAX_SESSIONS))
  }

  function Observe(p: Past, st: Logger, call: Call): Past
  {
    var closed := ClosedBy(st, call);
    var p1 := if closed.Some? then Close(p, st, closed.value) else p;
    match call
    case PairCall(e) => p1.(pairs := p.pairs + [e])
    case WakeCall(e) => p1.(wakes := p.wakes + [e])
    case ScanCall(e) => p1.(scans := p.scans + [e])
    case A2dpCall(report, _) => p1.(openReports := p.openReports + [report], reports := p.reports + [report])
    case DumpCall(now, later) =>
      p1.(pairs := [], wakes := [], scans := [], sessions := [],
          dumped := p.dumped + Cutoff(st, now, later).sessions)
    case _ => p1
  }

  ghost predicate IsRun(states: seq<Logger>, pasts: seq<Past>, calls: seq<Call>) {
    && |states| == |pasts| == |calls| + 1
    && states[0] == FRESH && pasts[0] == NO_PAST
    && forall i {:trigger calls[i]} :: 0 <= i < |calls| ==>
         states[i + 1] == Step(states[i], calls[i]) && pasts[i + 1] == Observe(pasts[i], states[i], calls[i])
  }

  // --- what dumps hold ---

  /** Each queue holds the last `capacity` of what was logged since the last dump, and each counter says
      how many there were. */
  ghost predicate Fresh(st: Logger, p: Past) {
    && st.sessions == LastOf(p.sessions, MAX_SESSIONS) && st.numSessions == |p.sessions|
    && st.pairs == LastOf(p.pairs, MAX_PAIRS) && st.numPairs == |p.pairs|
    && st.wakes == LastOf(p.wakes, MAX_WAKES) && st.numWakes == |p.wakes|
    && st.scans == LastOf(p.scans, MAX_SCANS) && st.numScans == |p.scans|
  }

  lemma FreshStep(st: Logger, p: Past, call: Call)
    requires Fresh(st, p) && Bounded(st)
    ensures Fresh(Step(st, call), Observe(p, st, call)) && Bounded(Step(st, call))
  {
    if ClosedBy(st, call).Some? {
      PushIsLast(p.sessions, MAX_SESSIONS, ClosedBy(st, call).value);
    }
    match call
    case PairCall(e) => PushIsLast(p.pairs, MAX_PAIRS, e);
    case WakeCall(e) => PushIsLast(p.wakes, MAX_WAKES, e);
    case ScanCall(e) => PushIsLast(p.scans, MAX_SCANS, e);
    case _ =>
  }

  /** Every dump lists exactly the last `capacity` of the events and sessions logged since the previous
      dump, in order, and reports how many there were. */
  ghost predicate FaithfulDump(d: Dump, sessions: seq<Session>, p: Past) {
    && d.sessions == LastOf(sessions, MAX_SESSIONS) && d.numSessions == |sessions|
    && d.pairs == LastOf(p.pairs, MAX_PAIRS) && d.numPairs == |p.pairs|
    && d.wakes == LastOf(p.wakes, MAX_WAKES) && d.numWakes == |p.wakes|
    && d.scans == LastOf(p.scans, MAX_SCANS) && d.numScans == |p.scans|
  }

  lemma DumpIsFaithful(st: Logger, p: Past, now: nat, later: nat)
    requires Fresh(st, p) && Bounded(st)
    ensures FaithfulDump(DumpOf(Cutoff(st, now, later)), p.sessions + AsSeq(ClosedBy(st, DumpCall(now, later))), p)
  {
    if st.session.Some? {
      PushIsLast(p.sessions, MAX_SESSIONS, ClosedBy(st, DumpCall(now, later)).value);
    } else {
      assert p.sessions + [] == p.sessions;
    }
  }

  // --- where every report and every second of audio goes ---

  function Digest(rs: seq<Metrics>): Option<A2dpSession> {
    if rs == [] then None else Some(Summary(Accumulate(rs)))
  }

  ghost function Flatten(rss: seq<seq<Metrics>>): seq<Metrics> {
    if rss == [] then [] else Flatten(rss[..|rss| - 1]) + rss[|rss| - 1]
  }

  ghost function AudioOf(a: Option<A2dpSession>): nat {
    if a.Some? then Max(0, a.value.audioDuration) else 0
  }

  ghost function Audio(ss: seq<Session>): nat {
    if ss == [] then 0 else Audio(ss[..|ss| - 1]) + AudioOf(ss[|ss| - 1].a2dp)
  }

  /** The open session carries exactly the reports since it was opened, every closed session exactly its
      own, and together they are all reports in order. */
  ghost predicate Landed(st: Logger, p: Past) {
    && st.metrics == Accumulate(p.openReports)
    && (if st.session.Some? then st.session.value.a2dp == Digest(p.openReports) else p.openReports == [])
    && |p.closed| == |p.closedReports|
    && (forall k :: 0 <= k < |p.closed| ==> p.closed[k].a2dp == Digest(p.closedReports[k]))
    && p.reports == Flatten(p.closedReports) + p.openReports
  }

  /** Every closed session is in exactly one place: leaked, dumped or still queued. */
  ghost predicate Placed(st: Logger, p: Past) {
    && multiset(p.closed) == multiset(p.leaked) + multiset(p.dumped) + multiset(st.sessions)
    && Audio(p.closed) == Audio(p.leaked) + Audio(p.dumped) + Audio(st.sessions)
  }

  lemma FlattenSnoc(rss: seq<seq<Metrics>>, rs: seq<Metrics>)
    ensures Flatten(rss + [rs]) == Flatten(rss) + rs
  {
    assert (rss + [rs])[..|rss|] == rss;
  }

  lemma {:induction false} AudioConcat(a: seq<Session>, b: seq<Session>)
    ensures Audio(a + b) == Audio(a) + Audio(b)
  {
    if b == [] {
      assert a + b == a;
    } else {
      var n := |b| - 1;
      AudioConcat(a, b[..n]);
      assert (a + b)[..|a + b| - 1] == a + b[..n];
    }
  }

  lemma LandedClose(st: Logger, p: Past, s: Session)
    requires Landed(st, p) && s.a2dp == Digest(p.openReports)
    ensures var p' := Close(p, st, s);
            && |p'.closed| == |p'.closedReports|
            && (forall k :: 0 <= k < |p'.closed| ==> p'.closed[k].a2dp == Digest(p'.closedReports[k]))
            && p'.reports == Flatten(p'.closedReports) + p'.openReports
  {
    FlattenSnoc(p.closedReports, p.openReports);
  }

  lemma LandedStep(st: Logger, p: Past, call: Call)
    requires Landed(st, p) && Bounded(st)
    ensures Landed(Step(st, call), Observe(p, st, call))
  {
    if ClosedBy(st, call).Some? {
      LandedClose(st, p, ClosedBy(st, call).value);
    }
    if call.A2dpCall? {
      AccumulateSnoc(p.openReports, call.report);
      assert p.reports + [call.report] == Flatten(p.closedReports) + (p.openReports + [call.report]);
    }
  }

  /** A push leaks what the queue no longer holds. */
  lemma PushPlaces(q: seq<Session>, s: Session)
    requires |q| <= MAX_SESSIONS
    ensures var q', out := Push(q, MAX_SESSIONS, s), Leaked(q, MAX_SESSIONS);
            && multiset(out) + multiset(q') == multiset(q) + multiset{s}
            && Audio(out) + Audio(q') == Audio(q) + Audio([s])
  {
    var q', out := Push(q, MAX_SESSIONS, s), Leaked(q, MAX_SESSIONS);
    assert out + q' == q + [s];
    AudioConcat(out, q');
    AudioConcat(q, [s]);
    assert multiset(out + q') == multiset(out) + multiset(q');
    assert multiset(q + [s]) == multiset(q) + multiset([s]);
  }

  lemma Shuffle(all: multiset<Session>, l: multiset<Session>, d: multiset<Session>, q: multiset<Session>,
                out: multiset<Session>, q': multiset<Session>, s: multiset<Session>)
    requires all == l + d + q && out + q' == q + s
    ensures all + s == (l + out) + d + q'
  {
    assert (l + out) + d + q' == l + d + (out + q');
    assert l + d + (q + s) == (l + d + q) + s;
  }

  lemma PlacedClose(st: Logger, p: Past, s: Session, st': Logger)
    requires Placed(st, p) && Bounded(st) && st'.sessions == Push(st.sessions, MAX_SESSIONS, s)
    ensures Placed(st', Close(p, st, s))
  {
    var out := Leaked(st.sessions, MAX_SESSIONS);
    PushPlaces(st.sessions, s);
    AudioConcat(p.closed, [s]);
    AudioConcat(p.leaked, out);
    assert multiset(p.closed + [s]) == multiset(p.closed) + multiset{s};
    assert multiset(p.leaked + out) == multiset(p.leaked) + multiset(out);
    Shuffle(multiset(p.closed), multiset(p.leaked), multiset(p.dumped), multiset(st.sessions),
            multiset(out), multiset(st'.sessions), multiset{s});
  }

  lemma PlacedDump(st: Logger, p: Past, st': Logger)
    requires Placed(st, p) && st'.sessions == []
    ensures Placed(st', p.(pairs := [], wakes := [], scans := [], sessions := [], dumped := p.dumped + st.sessions))
  {
    AudioConcat(p.dumped, st.sessions);
    assert multiset(p.dumped + st.sessions) == multiset(p.dumped) + multiset(st.sessions);
  }

  lemma PlacedStep(st: Logger, p: Past, call: Call)
    requires Placed(st, p) && Bounded(st)
    ensures Placed(Step(st, call), Observe(p, st, call))
  {
    var closed := ClosedBy(st, call);
    if call.DumpCall? {
      var st1 := Cutoff(st, call.now, call.later);
      if closed.Some? {
        PlacedClose(st, p, closed.value, st1);
        PlacedDump(st1, Close(p, st, closed.value), Step(st, call));
      } else {
        PlacedDump(st1, p, Step(st, call));
      }
    } else if closed.Some? {
      PlacedClose(st, p, closed.value, Step(st, call));
    }
  }

  /** All of it at once, for every state of every run. */
  lemma {:induction false} RunKeeps(states: seq<Logger>, pasts: seq<Past>, calls: seq<Call>, i: nat)
    requires IsRun(states, pasts, calls) && i < |states|
    ensures Bounded(states[i]) && Fresh(states[i], pasts[i])
    ensures Landed(states[i], pasts[i]) && Placed(states[i], pasts[i])
  {
    if i > 0 {
      RunKeeps(states, pasts, calls, i - 1);
      var st, p, call := states[i - 1], pasts[i - 1], calls[i - 1];
      FreshStep(st, p, call);
      LandedStep(st, p, call);
      PlacedStep(st, p, call);
    }
  }

  /** Every dump of every run is faithful to what was logged since the one before. */
  lemma DumpsAreFaithful(states: seq<Logger>, pasts: seq<Past>, calls: seq<Call>, i: nat)
    requires IsRun(states, pasts, calls) && i < |calls| && calls[i].DumpCall?
    ensures FaithfulDump(DumpOf(Cutoff(states[i], calls[i].now, calls[i].later)),
                         pasts[i].sessions + AsSeq(ClosedBy(states[i], calls[i])), pasts[i])
  {
    RunKeeps(states, pasts, calls, i);
    DumpIsFaithful(states[i], pasts[i], calls[i].now, calls[i].later);
  }

  // --- what a session tells ---

  /** Minimum, maxima, totals, codec and offload flag of a session are those of the reports `rs`; its average
      is at most their exact weighted mean, below it by less than their number, its underrun average their exact
      weighted mean. */
  ghost predicate Tells(a: A2dpSession, rs: seq<Metrics>) {
    && IsTotal(rs, AudioDuration, a.audioDuration) && IsTotal(rs, OverrunsTotal, a.overrunsTotal)
    && IsExtreme(rs, TimerMin, a.timerMin, true)
    && IsExtreme(rs, TimerMax, a.timerMax, false) && IsExtreme(rs, OverrunsMax, a.overrunsMax, false)
    && IsFirstCodec(rs, a.codecIndex)
    && (a.offload <==> exists i :: 0 <= i < |rs| && rs[i].offload)
    && (Count(rs) > 0 ==> a.timerAvg * Count(rs) <= Weighted(rs) < (a.timerAvg + Reports(rs)) * Count(rs))
    && IsMean(rs, a.underrunsAvg, a.underrunsCount)
  }

  lemma DigestTells(rs: seq<Metrics>)
    requires rs != []
    ensures Digest(rs).Some? && Tells(Digest(rs).value, rs)
  {
    AccumulateSummarizes(rs);
    AverageBound(rs);
    UnderrunsAreMean(rs);
  }

  /** Every session ever closed tells of exactly its own reports. */
  lemma SessionsTell(states: seq<Logger>, pasts: seq<Past>, calls: seq<Call>, i: nat, k: nat)
    requires IsRun(states, pasts, calls) && i < |states| && k < |pasts[i].closed|
    ensures |pasts[i].closedReports| == |pasts[i].closed|
    ensures var a, rs := pasts[i].closed[k].a2dp, pasts[i].closedReports[k];
            (a.None? <==> rs == []) && (a.Some? ==> Tells(a.value, rs))
  {
    RunKeeps(states, pasts, calls, i);
    if pasts[i].closedReports[k] != [] {
      DigestTells(pasts[i].closedReports[k]);
    }
  }

  // --- conservation of audio ---

  lemma {:induction false} TotalConcat(a: seq<Metrics>, b: seq<Metrics>)
    ensures Total(a + b, AudioDuration) == Total(a, AudioDuration) + Total(b, AudioDuration)
  {
    if b == [] {
      assert a + b == a;
    } else {
      var n := |b| - 1;
      TotalConcat(a, b[..n]);
      assert (a + b)[..|a + b| - 1] == a + b[..n];
    }
  }

  /** The audio a session shows is that of the reports that went into it. */
  lemma DigestAudio(rs: seq<Metrics>)
    ensures AudioOf(Digest(rs)) == Total(rs, AudioDuration)
  {
    AccumulateSummarizes(rs);
    if !Reported(rs, AudioDuration) {
      NothingReported(rs, AudioDuration);
    }
  }

  lemma {:induction false} ClosedAudio(closed: seq<Session>, rss: seq<seq<Metrics>>)
    requires |closed| == |rss| && forall k :: 0 <= k < |closed| ==> closed[k].a2dp == Digest(rss[k])
    ensures Audio(closed) == Total(Flatten(rss), AudioDuration)
  {
    if closed != [] {
      var n := |closed| - 1;
      ClosedAudio(closed[..n], rss[..n]);
      DigestAudio(rss[n]);
      TotalConcat(Flatten(rss[..n]), rss[n]);
    }
  }

  /** Audio is conserved: dumped, leaked, queued and open sessions add up to all non-negative durations
      ever logged. */
  lemma AudioConserved(states: seq<Logger>, pasts: seq<Past>, calls: seq<Call>, i: nat)
    requires IsRun(states, pasts, calls) && i < |states|
    ensures var st, p := states[i], pasts[i];
            var pending := if st.session.Some? then AudioOf(st.session.value.a2dp) else 0;
            Audio(p.dumped) + Audio(p.leaked) + Audio(st.sessions) + pending == Total(p.reports, AudioDuration)
  {
    RunKeeps(states, pasts, calls, i);
    var p := pasts[i];
    ClosedAudio(p.closed, p.closedReports);
    DigestAudio(p.openReports);
    TotalConcat(Flatten(p.closedReports), p.openReports);
  }
}
