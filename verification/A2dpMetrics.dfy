/** The accumulated A2DP metrics of system/common/metrics.cc; -1 stands for "nothing reported". */
module A2dpMetrics {
  datatype Metrics = Metrics(
    audioDuration: int, timerMin: int, timerMax: int, timerAvg: int, schedulingCount: int,
    overrunsMax: int, overrunsTotal: int, underrunsAvg: real, underrunsCount: int,
    codecIndex: int, offload: bool)

  const NOTHING: Metrics := Metrics(-1, -1, -1, -1, -1, -1, -1, -1.0, -1, -1, false)

  function Max(a: int, b: int): int {
    if a < b then b else a
  }

  function Min(a: int, b: int): int {
    if b < a then b else a
  }

  /** Combined average of two counted averages; both dividends are non-negative, so the source's
      truncating division is this one. */
  function CombineAverages(avgA: int, ctA: int, avgB: int, ctB: int): int {
    if ctA > 0 && ctB > 0 then (avgA * ctA + avgB * ctB) / (ctA + ctB)
    else if ctB > 0 then avgB
    else avgA
  }

  function CombineReals(avgA: real, ctA: int, avgB: real, ctB: int): real {
    if ctA > 0 && ctB > 0 then (avgA * ctA as real + avgB * ctB as real) / (ctA + ctB) as real
    else if ctB > 0 then avgB
    else avgA
  }

  function UpdateTimer(avg: int, count: int, r: Metrics): (int, int) {
    if r.timerAvg < 0 || r.schedulingCount < 0 then (avg, count)
    else if avg < 0 || count < 0 then (r.timerAvg, r.schedulingCount)
    else (CombineAverages(avg, count, r.timerAvg, r.schedulingCount), count + r.schedulingCount)
  }

  function UpdateUnderruns(avg: real, count: int, r: Metrics): (real, int) {
    if r.underrunsAvg < 0.0 || r.underrunsCount < 0 then (avg, count)
    else if avg < 0.0 || count < 0 then (r.underrunsAvg, r.underrunsCount)
    else (CombineReals(avg, count, r.underrunsAvg, r.underrunsCount), count + r.underrunsCount)
  }

  function Update(m: Metrics, r: Metrics): Metrics {
    var timer := UpdateTimer(m.timerAvg, m.schedulingCount, r);
    var underruns := UpdateUnderruns(m.underrunsAvg, m.underrunsCount, r);
    Metrics(
      if r.audioDuration >= 0 then Max(0, m.audioDuration) + r.audioDuration else m.audioDuration,
      if r.timerMin < 0 then m.timerMin else if m.timerMin < 0 then r.timerMin else Min(m.timerMin, r.timerMin),
      if r.timerMax >= 0 then Max(m.timerMax, r.timerMax) else m.timerMax,
      timer.0, timer.1,
      if r.overrunsMax >= 0 then Max(m.overrunsMax, r.overrunsMax) else m.overrunsMax,
      if r.overrunsTotal >= 0 then Max(0, m.overrunsTotal) + r.overrunsTotal else m.overrunsTotal,
      underruns.0, underruns.1,
      if m.codecIndex < 0 then r.codecIndex else m.codecIndex,
      m.offload || r.offload)
  }

  /** The metrics after a sequence of reports. */
  function Accumulate(rs: seq<Metrics>): Metrics {
    if rs == [] then NOTHING else Update(Accumulate(rs[..|rs| - 1]), rs[|rs| - 1])
  }

  lemma AccumulateSnoc(rs: seq<Metrics>, r: Metrics)
    ensures Accumulate(rs + [r]) == Update(Accumulate(rs), r)
  {
    assert (rs + [r])[..|rs|] == rs;
  }

  // --- totals, extremes, first and any ---

  datatype Field = AudioDuration | TimerMin | TimerMax | OverrunsMax | OverrunsTotal | CodecIndex

  function Value(r: Metrics, field: Field): int {
    match field
    case AudioDuration => r.audioDuration
    case TimerMin => r.timerMin
    case TimerMax => r.timerMax
    case OverrunsMax => r.overrunsMax
    case OverrunsTotal => r.overrunsTotal
    case CodecIndex => r.codecIndex
  }

  /** Sum of the non-negative values of a field. */
  ghost function Total(rs: seq<Metrics>, field: Field): nat {
    if rs == [] then 0 else Total(rs[..|rs| - 1], field) + Max(0, Value(rs[|rs| - 1], field))
  }

  ghost predicate Reported(rs: seq<Metrics>, field: Field) {
    exists i :: 0 <= i < |rs| && Value(rs[i], field) >= 0
  }

  /** `x` bounds every non-negative value of the field and is one of them; -1 if there is none. */
  ghost predicate IsExtreme(rs: seq<Metrics>, field: Field, x: int, least: bool) {
    if Reported(rs, field) then
      && (exists i :: 0 <= i < |rs| && Value(rs[i], field) == x && x >= 0)
      && (forall i :: 0 <= i < |rs| && Value(rs[i], field) >= 0 ==>
            if least then x <= Value(rs[i], field) else Value(rs[i], field) <= x)
    else x == -1
  }

  ghost predicate IsTotal(rs: seq<Metrics>, field: Field, x: int) {
    x == if Reported(rs, field) then Total(rs, field) else -1
  }

  lemma ReportedSnoc(rs: seq<Metrics>, r: Metrics, field: Field)
    ensures Reported(rs + [r], field) <==> Reported(rs, field) || Value(r, field) >= 0
  {
    var all := rs + [r];
    assert all[|rs|] == r && forall i :: 0 <= i < |rs| ==> all[i] == rs[i];
  }

  lemma {:induction false} NothingReported(rs: seq<Metrics>, field: Field)
    requires !Reported(rs, field)
    ensures Total(rs, field) == 0
  {
    if rs != [] {
      NothingReported(rs[..|rs| - 1], field);
    }
  }

  lemma ExtremeSnoc(rs: seq<Metrics>, r: Metrics, field: Field, x: int, least: bool)
    requires IsExtreme(rs, field, x, least)
    ensures var y := Value(r, field);
            IsExtreme(rs + [r], field,
                      if y < 0 then x else if x < 0 then y else if least then Min(x, y) else Max(x, y), least)
  {
    var all := rs + [r];
    ReportedSnoc(rs, r, field);
    assert all[|rs|] == r && forall i :: 0 <= i < |rs| ==> all[i] == rs[i];
  }

  lemma TotalSnoc(rs: seq<Metrics>, r: Metrics, field: Field, x: int)
    requires IsTotal(rs, field, x)
    ensures IsTotal(rs + [r], field, if Value(r, field) >= 0 then Max(0, x) + Value(r, field) else x)
  {
    var all := rs + [r];
    assert all[..|rs|] == rs && all[|rs|] == r;
    ReportedSnoc(rs, r, field);
    if !Reported(rs, field) {
      NothingReported(rs, field);
    }
  }

  /** The first non-negative codec index, or the last one reported. */
  ghost predicate IsFirstCodec(rs: seq<Metrics>, x: int) {
    if Reported(rs, CodecIndex) then
      exists i :: 0 <= i < |rs| && rs[i].codecIndex == x && x >= 0 && forall k :: 0 <= k < i ==> rs[k].codecIndex < 0
    else x == if rs == [] then -1 else rs[|rs| - 1].codecIndex
  }

  /** Minimum, maxima, totals, codec and offload flag are those of all the valid reports. */
  ghost predicate Summarizes(rs: seq<Metrics>, m: Metrics) {
    && IsTotal(rs, AudioDuration, m.audioDuration)
    && IsExtreme(rs, TimerMin, m.timerMin, true)
    && IsExtreme(rs, TimerMax, m.timerMax, false)
    && IsExtreme(rs, OverrunsMax, m.overrunsMax, false)
    && IsTotal(rs, OverrunsTotal, m.overrunsTotal)
    && IsFirstCodec(rs, m.codecIndex)
    && (m.offload <==> exists i :: 0 <= i < |rs| && rs[i].offload)
  }

  lemma CodecSnoc(rs: seq<Metrics>, r: Metrics, x: int)
    requires IsFirstCodec(rs, x)
    ensures IsFirstCodec(rs + [r], if x < 0 then r.codecIndex else x)
  {
    var all := rs + [r];
    ReportedSnoc(rs, r, CodecIndex);
    assert all[|rs|] == r && forall i :: 0 <= i < |rs| ==> all[i] == rs[i];
  }

  lemma AnyOffload(rs: seq<Metrics>, r: Metrics)
    ensures (exists i :: 0 <= i < |rs + [r]| && (rs + [r])[i].offload) <==>
              (exists i :: 0 <= i < |rs| && rs[i].offload) || r.offload
  {
    var all := rs + [r];
    assert all[|rs|] == r && forall i :: 0 <= i < |rs| ==> all[i] == rs[i];
  }

  lemma SummarizesSnoc(rs: seq<Metrics>, r: Metrics, m: Metrics)
    requires Summarizes(rs, m)
    ensures Summarizes(rs + [r], Update(m, r))
  {
    TotalSnoc(rs, r, AudioDuration, m.audioDuration);
    ExtremeSnoc(rs, r, TimerMin, m.timerMin, true);
    ExtremeSnoc(rs, r, TimerMax, m.timerMax, false);
    ExtremeSnoc(rs, r, OverrunsMax, m.overrunsMax, false);
    TotalSnoc(rs, r, OverrunsTotal, m.overrunsTotal);
    CodecSnoc(rs, r, m.codecIndex);
    AnyOffload(rs, r);
  }

  lemma {:induction false} AccumulateSummarizes(rs: seq<Metrics>)
    ensures Summarizes(rs, Accumulate(rs))
  {
    if rs != [] {
      var before, r := rs[..|rs| - 1], rs[|rs| - 1];
      AccumulateSummarizes(before);
      SummarizesSnoc(before, r, Accumulate(before));
      assert before + [r] == rs;
    }
  }

  // --- the truncating running average ---

  predicate Timed(r: Metrics) {
    r.timerAvg >= 0 && r.schedulingCount >= 0
  }

  /** Number, total count and weighted sum of the valid averages reported. */
  ghost function Reports(rs: seq<Metrics>): nat {
    if rs == [] then 0 else Reports(rs[..|rs| - 1]) + if Timed(rs[|rs| - 1]) then 1 else 0
  }

  ghost function Count(rs: seq<Metrics>): nat {
    if rs == [] then 0 else Count(rs[..|rs| - 1]) + if Timed(rs[|rs| - 1]) then rs[|rs| - 1].schedulingCount else 0
  }

  ghost function Weighted(rs: seq<Metrics>): int {
    if rs == [] then 0
    else
      var r := rs[|rs| - 1];
      Weighted(rs[..|rs| - 1]) + if Timed(r) then r.timerAvg * r.schedulingCount else 0
  }

  lemma MulMonotone(a: int, b: int, n: int)
    requires a <= b && n >= 0
    ensures n * a <= n * b
  {
  }

  lemma DivBounds(x: int, d: int)
    requires x >= 0 && d > 0
    ensures 0 <= x - (x / d) * d <= d - 1 && x / d >= 0
  {
  }

  lemma DivBetween(x: int, d: int, lo: int, hi: int)
    requires d > 0 && x >= 0 && lo * d <= x <= hi * d
    ensures lo <= x / d <= hi
  {
    DivBounds(x, d);
    var q := x / d;
    if q < lo {
      MulMonotone(q + 1, lo, d);
    } else if q > hi {
      MulMonotone(hi + 1, q, d);
    }
  }

  /** One combination loses less than the new total count and stays between the two averages. */
  lemma CombineStep(avg: int, ct: int, a: int, c: int)
    requires avg >= 0 && a >= 0 && ct > 0 && c > 0
    ensures var r := CombineAverages(avg, ct, a, c);
            && 0 <= avg * ct + a * c - r * (ct + c) <= ct + c - 1
            && Min(avg, a) <= r <= Max(avg, a)
  {
    var lo, hi, x, d := Min(avg, a), Max(avg, a), avg * ct + a * c, ct + c;
    MeanBetween(avg, ct, a, c, lo, hi);
    DivBounds(x, d);
    DivBetween(x, d, lo, hi);
  }

  lemma MeanBetween(avg: int, ct: int, a: int, c: int, lo: int, hi: int)
    requires ct > 0 && c > 0 && 0 <= lo <= avg <= hi && lo <= a <= hi
    ensures 0 <= avg * ct + a * c && lo * (ct + c) <= avg * ct + a * c <= hi * (ct + c)
  {
    MulMonotone(lo, avg, ct);
    MulMonotone(lo, a, c);
    MulMonotone(avg, hi, ct);
    MulMonotone(a, hi, c);
    MulMonotone(0, lo, ct + c);
    assert lo * (ct + c) == ct * lo + c * lo && hi * (ct + c) == ct * hi + c * hi;
  }

  /** `avg` over a total count `ct` against `n` reports with weighted sum `w`: never above the exact mean
      w / ct, below it by less than n. */
  ghost predicate Close(avg: int, ct: nat, w: int, n: nat) {
    && (ct == 0 ==> w == 0)
    && (ct > 0 ==> 0 <= w - avg * ct <= (n - 1) * (ct - 1))
  }

  lemma CloseStep(avg: int, ct: nat, w: int, n: nat, a: nat, c: nat)
    requires n > 0 && avg >= 0 && Close(avg, ct, w, n)
    ensures Close(CombineAverages(avg, ct, a, c), ct + c, w + a * c, n + 1)
  {
    var r := CombineAverages(avg, ct, a, c);
    if ct > 0 && c > 0 {
      CombineStep(avg, ct, a, c);
      MulMonotone(ct - 1, ct + c - 1, n - 1);
      assert n * (ct + c - 1) == (n - 1) * (ct + c - 1) + (ct + c - 1);
    } else if ct > 0 {
      MulMonotone(n - 1, n, ct - 1);
      assert a * c == 0;
    } else if c > 0 {
      MulMonotone(0, c - 1, n);
    } else {
      assert a * c == 0;
    }
  }

  /** Some positive count came with an average on each side of `avg`. */
  ghost predicate Within(rs: seq<Metrics>, avg: int) {
    && (exists i :: 0 <= i < |rs| && Timed(rs[i]) && rs[i].schedulingCount > 0 && rs[i].timerAvg <= avg)
    && (exists i :: 0 <= i < |rs| && Timed(rs[i]) && rs[i].schedulingCount > 0 && avg <= rs[i].timerAvg)
  }

  ghost predicate AverageOk(rs: seq<Metrics>, avg: int, ct: int) {
    if Reports(rs) == 0 then avg == -1 && ct == -1
    else
      && avg >= 0 && ct == Count(rs)
      && Close(avg, Count(rs), Weighted(rs), Reports(rs))
      && (ct > 0 ==> Within(rs, avg))
  }

  lemma WithinSnoc(rs: seq<Metrics>, r: Metrics, avg: int, avg': int)
    requires Timed(r) && r.schedulingCount > 0 && Min(avg, r.timerAvg) <= avg' <= Max(avg, r.timerAvg)
    requires Within(rs, avg) || avg' == r.timerAvg
    ensures Within(rs + [r], avg')
  {
    var all := rs + [r];
    assert all[|rs|] == r && forall i :: 0 <= i < |rs| ==> all[i] == rs[i];
  }

  lemma WithinStay(rs: seq<Metrics>, r: Metrics, avg: int)
    requires Within(rs, avg)
    ensures Within(rs + [r], avg)
  {
    var all := rs + [r];
    assert forall i :: 0 <= i < |rs| ==> all[i] == rs[i];
  }

  lemma AverageSnoc(rs: seq<Metrics>, r: Metrics, avg: int, ct: int)
    requires AverageOk(rs, avg, ct)
    ensures var (avg', ct') := UpdateTimer(avg, ct, r); AverageOk(rs + [r], avg', ct')
  {
    var all := rs + [r];
    assert all[..|rs|] == rs && all[|rs|] == r;
    var (avg', _) := UpdateTimer(avg, ct, r);
    var a, c := r.timerAvg, r.schedulingCount;
    if !Timed(r) {
      if ct > 0 {
        WithinStay(rs, r, avg);
      }
    } else if Reports(rs) == 0 {
      NoReports(rs);
      if c > 0 {
        WithinSnoc(rs, r, a, a);
      } else {
        assert a * c == 0;
      }
    } else {
      CloseStep(avg, ct, Weighted(rs), Reports(rs), a, c);
      if ct > 0 && c > 0 {
        CombineStep(avg, ct, a, c);
        WithinSnoc(rs, r, avg, avg');
      } else if c > 0 {
        WithinSnoc(rs, r, a, a);
      } else if ct > 0 {
        WithinStay(rs, r, avg);
      }
    }
  }

  lemma {:induction false} NoReports(rs: seq<Metrics>)
    requires Reports(rs) == 0
    ensures Count(rs) == 0 && Weighted(rs) == 0
  {
    if rs != [] {
      NoReports(rs[..|rs| - 1]);
    }
  }

  lemma {:induction false} AverageIsOk(rs: seq<Metrics>)
    ensures AverageOk(rs, Accumulate(rs).timerAvg, Accumulate(rs).schedulingCount)
  {
    if rs != [] {
      var before, r := rs[..|rs| - 1], rs[|rs| - 1];
      AverageIsOk(before);
      AverageSnoc(before, r, Accumulate(before).timerAvg, Accumulate(before).schedulingCount);
      assert before + [r] == rs;
    }
  }

  lemma BelowByLess(avg: int, c: int, w: int, n: int)
    requires c > 0 && n > 0 && 0 <= w - avg * c <= (n - 1) * (c - 1)
    ensures avg * c <= w < (avg + n) * c
  {
    MulMonotone(c - 1, c, n - 1);
    assert (avg + n) * c == avg * c + (n - 1) * c + c;
  }

  /** After any reports the running average over a positive total count never exceeds the exact weighted
      mean, is below it by less than the number of reports, and lies within the averages reported with
      positive counts; the count is the exact total. */
  lemma AverageBound(rs: seq<Metrics>)
    ensures var avg, c := Accumulate(rs).timerAvg, Count(rs);
            c > 0 ==>
              && Accumulate(rs).schedulingCount == c
              && avg * c <= Weighted(rs) < (avg + Reports(rs)) * c
              && Within(rs, avg)
  {
    AverageIsOk(rs);
    if Reports(rs) == 0 {
      NoReports(rs);
    } else if Count(rs) > 0 {
      BelowByLess(Accumulate(rs).timerAvg, Count(rs), Weighted(rs), Reports(rs));
    }
  }

  // --- the underrun average ---

  predicate Counted(r: Metrics) {
    r.underrunsAvg >= 0.0 && r.underrunsCount >= 0
  }

  /** Number, total count and weighted sum of the valid underrun averages reported. */
  ghost function UnderrunReports(rs: seq<Metrics>): nat {
    if rs == [] then 0 else UnderrunReports(rs[..|rs| - 1]) + if Counted(rs[|rs| - 1]) then 1 else 0
  }

  ghost function UnderrunCount(rs: seq<Metrics>): nat {
    if rs == [] then 0
    else UnderrunCount(rs[..|rs| - 1]) + if Counted(rs[|rs| - 1]) then rs[|rs| - 1].underrunsCount else 0
  }

  ghost function UnderrunSum(rs: seq<Metrics>): real {
    if rs == [] then 0.0
    else
      var r := rs[|rs| - 1];
      UnderrunSum(rs[..|rs| - 1]) + if Counted(r) then r.underrunsAvg * r.underrunsCount as real else 0.0
  }

  /** The count is the total of the valid reports, and over a positive count the average is their weighted mean. */
  ghost predicate IsMean(rs: seq<Metrics>, avg: real, count: int) {
    if UnderrunReports(rs) == 0 then avg == -1.0 && count == -1
    else avg >= 0.0 && count == UnderrunCount(rs) && avg * count as real == UnderrunSum(rs)
  }

  lemma {:induction false} NoUnderruns(rs: seq<Metrics>)
    requires UnderrunReports(rs) == 0
    ensures UnderrunCount(rs) == 0 && UnderrunSum(rs) == 0.0
  {
    if rs != [] {
      NoUnderruns(rs[..|rs| - 1]);
    }
  }

  lemma MeanOfTwo(a: real, ct: int, b: real, c: int)
    requires a >= 0.0 && b >= 0.0 && ct >= 0 && c >= 0
    ensures var m := CombineReals(a, ct, b, c);
            m >= 0.0 && m * (ct + c) as real == a * ct as real + b * c as real
  {
    if ct > 0 && c > 0 {
      var sum, n := a * ct as real + b * c as real, (ct + c) as real;
      assert sum >= 0.0 && n > 0.0;
      assert sum / n >= 0.0 && sum / n * n == sum;
    }
  }

  lemma MeanSnoc(rs: seq<Metrics>, r: Metrics, avg: real, count: int)
    requires IsMean(rs, avg, count)
    ensures var (avg', count') := UpdateUnderruns(avg, count, r); IsMean(rs + [r], avg', count')
  {
    var all := rs + [r];
    assert all[..|rs|] == rs && all[|rs|] == r;
    if UnderrunReports(rs) == 0 {
      NoUnderruns(rs);
    } else if Counted(r) {
      MeanOfTwo(avg, count, r.underrunsAvg, r.underrunsCount);
    }
  }

  /** After any reports the underrun average is the exact weighted mean of the valid ones, and the count their
      total. */
  lemma {:induction false} UnderrunsAreMean(rs: seq<Metrics>)
    ensures IsMean(rs, Accumulate(rs).underrunsAvg, Accumulate(rs).underrunsCount)
  {
    if rs != [] {
      var before, r := rs[..|rs| - 1], rs[|rs| - 1];
      UnderrunsAreMean(before);
      MeanSnoc(before, r, Accumulate(before).underrunsAvg, Accumulate(before).underrunsCount);
      assert before + [r] == rs;
    }
  }

  // --- overflow ---

  const TWO_31: int := 0x8000_0000
  const TWO_63: int := 0x8000_0000_0000_0000

  /** The most both counts of a combination may add up to. */
  const SAFE_COUNT: int := 0x1_0000_0002

  /** The sum of one combination fits 64 bits. */
  predicate Fits(avg: int, ct: int, a: int, c: int) {
    avg * ct + a * c < TWO_63
  }

  lemma SumFits(avg: int, ct: nat, a: int, c: nat)
    requires 0 <= avg < TWO_31 && 0 <= a < TWO_31 && ct + c <= SAFE_COUNT
    ensures Fits(avg, ct, a, c)
  {
    var top := TWO_31 - 1;
    assert top * ct + top * c == top * (ct + c);
    MulMonotone(avg, top, ct);
    MulMonotone(a, top, c);
    MulMonotone(ct + c, SAFE_COUNT, top);
  }

  /** The combination of any 32-bit averages with positive counts fits exactly when the counts add up to at most
      2^32 + 2. */
  lemma CombineFits(ct: nat, c: nat)
    requires ct > 0 && c > 0  // with a zero count no sum is formed
    ensures (forall avg, a :: 0 <= avg < TWO_31 && 0 <= a < TWO_31 ==> Fits(avg, ct, a, c)) <==> ct + c <= SAFE_COUNT
  {
    if ct + c <= SAFE_COUNT {
      forall avg, a | 0 <= avg < TWO_31 && 0 <= a < TWO_31 ensures Fits(avg, ct, a, c) {
        SumFits(avg, ct, a, c);
      }
    } else {
      var top := TWO_31 - 1;
      assert top * ct + top * c == top * (ct + c);
      MulMonotone(SAFE_COUNT + 1, ct + c, top);
      assert !Fits(top, ct, top, c);
    }
  }

  ghost predicate Narrow(rs: seq<Metrics>) {
    forall i :: 0 <= i < |rs| ==> rs[i].timerAvg < TWO_31
  }

  lemma {:induction false} AverageNarrow(rs: seq<Metrics>)
    requires Narrow(rs)
    ensures Accumulate(rs).timerAvg < TWO_31
  {
    if rs != [] {
      var before, r := rs[..|rs| - 1], rs[|rs| - 1];
      var m := Accumulate(before);
      AverageNarrow(before);
      if Timed(r) && m.timerAvg >= 0 && m.schedulingCount > 0 && r.schedulingCount > 0 {
        CombineStep(m.timerAvg, m.schedulingCount, r.timerAvg, r.schedulingCount);
      }
    }
  }

  /** Over any sequence of reports with 32-bit averages no combination overflows as long as the total count is
      at most 2^32 + 2. */
  lemma NoOverflow(rs: seq<Metrics>, r: Metrics)
    requires Narrow(rs + [r]) && Timed(r) && Reports(rs) > 0 && Count(rs) + r.schedulingCount <= SAFE_COUNT
    ensures var m := Accumulate(rs);
            0 <= m.timerAvg < TWO_31 && Fits(m.timerAvg, m.schedulingCount, r.timerAvg, r.schedulingCount)
  {
    assert forall i :: 0 <= i < |rs| ==> rs[i] == (rs + [r])[i];
    assert (rs + [r])[|rs|] == r;
    AverageIsOk(rs);
    AverageNarrow(rs);
    SumFits(Accumulate(rs).timerAvg, Count(rs), r.timerAvg, r.schedulingCount);
  }
}
