/** What the sessions closed by the metrics logger say about themselves, compared with what the calls alone say: when
    each session was opened and closed, by what, over which technology and with which device. */
module SessionHistory {
  import opened Wrappers
  import opened MetricsSessions

  /** A session as its caller sees it: opened at `time`, which a dump moves. */
  datatype Opening = Opening(time: nat, tech: Tech, device: Option<Device>)

  datatype Closing = Closing(opening: Opening, time: nat, reason: Reason)

  /** The open session after one more call; an A2DP report without one opens one for an audio device. */
  function Opened(o: Option<Opening>, call: Call): Option<Opening> {
    match call
    case StartCall(tech, timestamp, _, later) => Some(Opening(if timestamp != 0 then timestamp else later, tech, None))
    case EndCall(_, _, _) => None
    case DeviceCall(device, now) =>
      if o.Some? then Some(o.value.(device := Some(device))) else Some(Opening(now, UnknownTech, Some(device)))
    case A2dpCall(_, now) => if o.Some? then o else Some(Opening(now, BrEdr, Some(Device(0x04, 1))))
    case DumpCall(_, later) => if o.Some? then Some(o.value.(time := later)) else None
    case _ => o
  }

  /** The session a call closes: at the time it gives or, failing that, the time it finds. */
  function ClosedNow(o: Option<Opening>, call: Call): Option<Closing> {
    if o.None? then None
    else
      match call
      case StartCall(_, _, now, _) => Some(Closing(o.value, now, NextStartWithoutEnd))
      case EndCall(reason, timestamp, now) => Some(Closing(o.value, if timestamp != 0 then timestamp else now, reason))
      case DumpCall(now, _) => Some(Closing(o.value, now, MetricsDump))
      case _ => None
  }

  ghost function OpenAfter(calls: seq<Call>): Option<Opening> {
    if calls == [] then None else Opened(OpenAfter(calls[..|calls| - 1]), calls[|calls| - 1])
  }

  ghost function Closings(calls: seq<Call>): seq<Closing> {
    if calls == [] then []
    else
      var n := |calls| - 1;
      Closings(calls[..n]) + AsSeq(ClosedNow(OpenAfter(calls[..n]), calls[n]))
  }

  /** The session lasted `duration` whole seconds, unless the clock went back or around, and carries the closing
      call's reason and its own technology and device. */
  ghost predicate Tells(s: Session, c: Closing) {
    && s.reason == c.reason && s.tech == c.opening.tech && s.device == c.opening.device
    && (c.opening.time <= c.time < c.opening.time + 0x1_0000_0000_0000_0000 ==>
          s.duration * 1000 <= c.time - c.opening.time < (s.duration + 1) * 1000)
  }

  /** The logger's open session is the caller's. */
  ghost predicate SameOpen(st: Logger, o: Option<Opening>) {
    && (st.session.Some? <==> o.Some?)
    && (o.Some? ==>
          && st.startTime == o.value.time && st.session.value.tech == o.value.tech
          && st.session.value.device == o.value.device)
  }

  ghost predicate AllTell(closed: seq<Session>, cs: seq<Closing>) {
    |closed| == |cs| && forall k :: 0 <= k < |cs| ==> Tells(closed[k], cs[k])
  }

  lemma OpenSnoc(calls: seq<Call>, call: Call)
    ensures OpenAfter(calls + [call]) == Opened(OpenAfter(calls), call)
    ensures Closings(calls + [call]) == Closings(calls) + AsSeq(ClosedNow(OpenAfter(calls), call))
  {
    assert (calls + [call])[..|calls|] == calls;
  }

  lemma StepOpen(st: Logger, o: Option<Opening>, call: Call)
    requires SameOpen(st, o)
    ensures SameOpen(Step(st, call), Opened(o, call))
  {
  }

  lemma Seconds(t0: nat, t1: nat)
    requires t0 <= t1 < t0 + 0x1_0000_0000_0000_0000
    ensures var d := ((t1 - t0) % CLOCK_RANGE) / 1000;
            d * 1000 <= t1 - t0 < (d + 1) * 1000
  {
    assert (t1 - t0) % 0x1_0000_0000_0000_0000 == t1 - t0;
  }

  lemma ClosedTells(st: Logger, o: Option<Opening>, call: Call)
    requires SameOpen(st, o)
    ensures ClosedBy(st, call).Some? <==> ClosedNow(o, call).Some?
    ensures ClosedBy(st, call).Some? ==> Tells(ClosedBy(st, call).value, ClosedNow(o, call).value)
  {
    var c := ClosedNow(o, call);
    if c.Some? && c.value.opening.time <= c.value.time < c.value.opening.time + 0x1_0000_0000_0000_0000 {
      Seconds(c.value.opening.time, c.value.time);
    }
  }

  /** In every run the open session and all sessions ever closed, leaked and dumped ones too, are those the calls
      tell of. */
  lemma {:induction false} RunTells(states: seq<Logger>, pasts: seq<Past>, calls: seq<Call>, i: nat)
    requires IsRun(states, pasts, calls) && i < |states|
    ensures SameOpen(states[i], OpenAfter(calls[..i])) && AllTell(pasts[i].closed, Closings(calls[..i]))
  {
    if i > 0 {
      RunTells(states, pasts, calls, i - 1);
      assert calls[..i] == calls[..i - 1] + [calls[i - 1]];
      StepTells(states[i - 1], pasts[i - 1], calls[..i - 1], calls[i - 1]);
    }
  }

  lemma StepTells(st: Logger, p: Past, before: seq<Call>, call: Call)
    requires SameOpen(st, OpenAfter(before)) && AllTell(p.closed, Closings(before))
    ensures SameOpen(Step(st, call), OpenAfter(before + [call]))
    ensures AllTell(Observe(p, st, call).closed, Closings(before + [call]))
  {
    OpenSnoc(before, call);
    StepOpen(st, OpenAfter(before), call);
    ClosedTells(st, OpenAfter(before), call);
  }
}
