/** `Metrics`: the latency and timestamp windows, and what is computed from them. */
module MetricsCollector {
  const MAX_LATENCIES: nat := 1000
  const TICKS_PER_MILLISECOND := 1_000_000
  const MINUTE := 60_000 * TICKS_PER_MILLISECOND

  datatype Request = Request(latency: real, time: int)

  // ---------- what the windows hold ----------

  /** The latencies of the last thousand requests, or of all of them. */
  function LastLatencies(history: seq<Request>): seq<real> {
    var from := if |history| > MAX_LATENCIES then |history| - MAX_LATENCIES else 0;
    seq(|history| - from, i requires 0 <= i < |history| - from => history[from + i].latency)
  }

  /** The times of the requests that are not before `cutoff`, in order. */
  function TimesSince(history: seq<Request>, cutoff: int): seq<int> {
    if history == [] then []
    else
      var last := history[|history| - 1];
      TimesSince(history[..|history| - 1], cutoff) + if last.time >= cutoff then [last.time] else []
  }

  /** The times within a minute of the last request. */
  function RecentTimes(history: seq<Request>): seq<int> {
    if history == [] then [] else TimesSince(history, history[|history| - 1].time - MINUTE)
  }

  /** Requests are recorded under a clock that does not go back. */
  ghost predicate Chronological(history: seq<Request>) {
    forall i, j :: 0 <= i < j < |history| ==> history[i].time <= history[j].time
  }

  ghost predicate Ascending(times: seq<int>) {
    forall i, j :: 0 <= i < j < |times| ==> times[i] <= times[j]
  }

  /** Pops the times before `cutoff` off the front. */
  function PopBefore(times: seq<int>, cutoff: int): seq<int> {
    if times != [] && times[0] < cutoff then PopBefore(times[1..], cutoff) else times
  }

  lemma {:induction false} PopBeforeKeepsAscending(times: seq<int>, last: int, cutoff: int)
    requires Ascending(times + [last]) && cutoff <= last
    ensures PopBefore(times + [last], cutoff) == PopBefore(times, cutoff) + [last]
  {
    if times != [] && times[0] < cutoff {
      assert (times + [last])[1..] == times[1..] + [last];
      PopBeforeKeepsAscending(times[1..], last, cutoff);
    } else if times == [] {
      assert times + [last] == [last];
    } else {
      assert (times + [last])[0] == times[0];
    }
  }

  lemma {:induction false} TimesSinceAreRecent(history: seq<Request>, cutoff: int)
    requires Chronological(history)
    ensures var times := TimesSince(history, cutoff);
      && Ascending(times)
      && (forall i :: 0 <= i < |times| ==> cutoff <= times[i] <= history[|history| - 1].time)
      && |times| <= |history|
  {
    if history != [] {
      TimesSinceAreRecent(history[..|history| - 1], cutoff);
    }
  }

  /** Popping the front of an ascending window is filtering the whole history by the later cutoff. */
  lemma {:induction false} PopBeforeIsFilter(history: seq<Request>, earlier: int, cutoff: int)
    requires Chronological(history) && earlier <= cutoff
    ensures PopBefore(TimesSince(history, earlier), cutoff) == TimesSince(history, cutoff)
  {
    if history != [] {
      var front, last := history[..|history| - 1], history[|history| - 1];
      PopBeforeIsFilter(front, earlier, cutoff);
      TimesSinceAreRecent(front, earlier);
      TimesSinceAreRecent(history, earlier);
      var times := TimesSince(front, earlier);
      if cutoff <= last.time {
        PopBeforeKeepsAscending(times, last.time, cutoff);
      } else {
        TimesSinceAreRecent(front, cutoff);
        AllPopped(TimesSince(history, earlier), cutoff);
        AllPopped(times, cutoff);
      }
    }
  }

  lemma {:induction false} AllPopped(times: seq<int>, cutoff: int)
    requires forall i :: 0 <= i < |times| ==> times[i] < cutoff
    ensures PopBefore(times, cutoff) == []
  {
    if times != [] {
      AllPopped(times[1..], cutoff);
    }
  }

  /** The latency window, position by position: the last thousand requests, or all of them. */
  lemma LastLatenciesAt(history: seq<Request>)
    ensures var window := LastLatencies(history);
      && |window| == (if |history| <= 1000 then |history| else 1000)
      && forall i :: 0 <= i < |window| ==> window[i] == history[|history| - |window| + i].latency
  {}

  /** The times since a cutoff are those of an end of the history: all before it are older. */
  lemma {:induction false} TimesSinceAreSuffix(history: seq<Request>, cutoff: int) returns (k: nat)
    requires Chronological(history)
    ensures k <= |history| && |TimesSince(history, cutoff)| == |history| - k
    ensures forall i :: 0 <= i < k ==> history[i].time < cutoff
    ensures forall i :: k <= i < |history| ==> history[i].time >= cutoff
    ensures forall i :: k <= i < |history| ==> TimesSince(history, cutoff)[i - k] == history[i].time
  {
    k := 0;
    if history != [] {
      var front := history[..|history| - 1];
      k := TimesSinceAreSuffix(front, cutoff);
      if history[|history| - 1].time < cutoff {
        k := |history|;
        assert front == [] || front[|front| - 1].time <= history[|history| - 1].time;
      }
    }
  }

  /** The window of times is the end of the history that lies within sixty seconds of the last request. */
  lemma RecentTimesAt(history: seq<Request>) returns (k: nat)
    requires Chronological(history)
    ensures k <= |history| && |RecentTimes(history)| == |history| - k
    ensures forall i :: 0 <= i < |history| ==>
      (i >= k <==> history[|history| - 1].time - history[i].time <= 60_000_000_000)
    ensures forall i :: k <= i < |history| ==> RecentTimes(history)[i - k] == history[i].time
  {
    k := 0;
    if history != [] {
      k := TimesSinceAreSuffix(history, history[|history| - 1].time - MINUTE);
    }
  }

  // ---------- sorting and percentiles ----------

  ghost predicate IsSorted(s: seq<real>) {
    forall i, j :: 0 <= i < j < |s| ==> s[i] <= s[j]
  }

  function Insert(s: seq<real>, x: real): seq<real> {
    if s == [] || x <= s[0] then [x] + s else [s[0]] + Insert(s[1..], x)
  }

  /** What `std::ranges::sort` makes of a copy of the window. */
  function Sorted(s: seq<real>): seq<real> {
    if s == [] then [] else Insert(Sorted(s[..|s| - 1]), s[|s| - 1])
  }

  /** How many elements of `s` are at most `bound`. */
  function CountAtMost(s: seq<real>, bound: real): nat {
    if s == [] then 0 else CountAtMost(s[..|s| - 1], bound) + if s[|s| - 1] <= bound then 1 else 0
  }

  lemma {:induction false} CountAtMostConcat(a: seq<real>, b: seq<real>, bound: real)
    ensures CountAtMost(a + b, bound) == CountAtMost(a, bound) + CountAtMost(b, bound)
  {
    if b == [] {
      assert a + b == a;
    } else {
      CountAtMostConcat(a, b[..|b| - 1], bound);
      assert (a + b)[..|a + b| - 1] == a + b[..|b| - 1];
    }
  }

  lemma {:induction false} InsertAddsOne(s: seq<real>, x: real)
    ensures multiset(Insert(s, x)) == multiset(s) + multiset{x}
    ensures |Insert(s, x)| == |s| + 1 && forall y :: y in Insert(s, x) <==> y == x || y in s
  {
    if s != [] && s[0] < x {
      InsertAddsOne(s[1..], x);
      assert s == [s[0]] + s[1..];
    }
  }

  lemma {:induction false} InsertIsSorted(s: seq<real>, x: real)
    requires IsSorted(s)
    ensures IsSorted(Insert(s, x))
  {
    if s != [] && s[0] < x {
      InsertIsSorted(s[1..], x);
      InsertAddsOne(s[1..], x);
      var inserted := Insert(s[1..], x);
      forall i | 0 <= i < |inserted| ensures s[0] <= inserted[i] {
        assert inserted[i] in inserted;
      }
    }
  }

  lemma {:induction false} InsertCounts(s: seq<real>, x: real, bound: real)
    ensures CountAtMost(Insert(s, x), bound) == CountAtMost(s, bound) + if x <= bound then 1 else 0
  {
    if s == [] || x <= s[0] {
      CountAtMostConcat([x], s, bound);
      assert [x][..0] == [];
    } else {
      InsertCounts(s[1..], x, bound);
      assert s == [s[0]] + s[1..];
      CountAtMostConcat([s[0]], s[1..], bound);
      CountAtMostConcat([s[0]], Insert(s[1..], x), bound);
    }
  }

  lemma {:induction false} SortedIsSorted(s: seq<real>)
    ensures IsSorted(Sorted(s)) && |Sorted(s)| == |s|
    ensures multiset(Sorted(s)) == multiset(s)
    ensures forall y :: y in Sorted(s) <==> y in s
  {
    if s != [] {
      SortedIsSorted(s[..|s| - 1]);
      InsertIsSorted(Sorted(s[..|s| - 1]), s[|s| - 1]);
      InsertAddsOne(Sorted(s[..|s| - 1]), s[|s| - 1]);
      assert s == s[..|s| - 1] + [s[|s| - 1]];
    }
  }

  lemma {:induction false} SortedCounts(s: seq<real>, bound: real)
    ensures CountAtMost(Sorted(s), bound) == CountAtMost(s, bound)
  {
    if s != [] {
      SortedCounts(s[..|s| - 1], bound);
      InsertCounts(Sorted(s[..|s| - 1]), s[|s| - 1], bound);
    }
  }

  lemma PercentOf(percent: nat, n: nat)
    requires percent <= 100
    ensures 0 <= percent * n <= 100 * n
  {}

  /** The position a percentile reads, for a percentage of `percent`. */
  function PercentileIndex(n: nat, percent: nat): (i: nat)
    requires n > 0 && percent <= 100
    ensures i < n
  {
    PercentOf(percent, n - 1);
    var hundredths := percent * (n - 1);
    hundredths / 100
  }

  function Percentile(latencies: seq<real>, percent: nat): real
    requires percent <= 100
  {
    if latencies == [] then 0.0
    else
      SortedIsSorted(latencies);
      Sorted(latencies)[PercentileIndex(|latencies|, percent)]
  }

  lemma IndexIsRoundedDown(n: nat, percent: nat)
    requires n > 0 && percent <= 100
    ensures PercentileIndex(n, percent) == (n - 1) * percent / 100
  {}

  lemma {:induction false} CountPrefix(s: seq<real>, k: nat, bound: real)
    requires k <= |s|
    ensures (forall i :: 0 <= i < k ==> s[i] <= bound) ==> CountAtMost(s, bound) >= k
    ensures (forall i :: k <= i < |s| ==> s[i] > bound) ==> CountAtMost(s, bound) <= k
  {
    if s != [] {
      CountPrefix(s[..|s| - 1], if k < |s| then k else k - 1, bound);
    }
  }

  /** A percentile is the latency of its rank in the window, whatever the order it was recorded in. */
  lemma PercentileIsRank(latencies: seq<real>, percent: nat)
    requires latencies != [] && percent <= 100
    ensures
      var v, i := Percentile(latencies, percent), (|latencies| - 1) * percent / 100;
      && v in latencies
      && CountAtMost(latencies, v) > i
      && forall bound :: bound < v ==> CountAtMost(latencies, bound) <= i
  {
    hide Sorted, CountAtMost, PercentileIndex;
    SortedIsSorted(latencies);
    var s, i := Sorted(latencies), PercentileIndex(|latencies|, percent);
    IndexIsRoundedDown(|latencies|, percent);
    CountPrefix(s, i + 1, s[i]);
    SortedCounts(latencies, s[i]);
    forall bound | bound < s[i] ensures CountAtMost(latencies, bound) <= i {
      SortedCounts(latencies, bound);
      CountPrefix(s, i, bound);
    }
  }

  /** Percentiles are ordered, between the least and the greatest latency of the window. */
  lemma PercentilesAreOrdered(latencies: seq<real>, x: real)
    requires x in latencies
    ensures Percentile(latencies, 0) <= x <= Percentile(latencies, 100)
    ensures Percentile(latencies, 0) <= Percentile(latencies, 50) <= Percentile(latencies, 95)
      <= Percentile(latencies, 99) <= Percentile(latencies, 100)
  {
    SortedIsSorted(latencies);
    var s, n := Sorted(latencies), |latencies|;
    var i :| 0 <= i < n && s[i] == x;
    assert PercentileIndex(n, 0) == 0 && PercentileIndex(n, 100) == n - 1;
    assert PercentileIndex(n, 50) <= PercentileIndex(n, 95) <= PercentileIndex(n, 99);
  }

  // ---------- requests per second ----------

  function Qps(times: seq<int>): real {
    if |times| < 2 then 0.0
    else
      var milliseconds := (times[|times| - 1] - times[0]) / TICKS_PER_MILLISECOND;
      if milliseconds == 0 then 0.0 else (|times| - 1) as real / milliseconds as real * 1000.0
  }

  /** A rate that is reported at all is at least what a whole minute would give. */
  lemma QpsIsAtLeastPerMinute(history: seq<Request>)
    requires Chronological(history)
    ensures var times := RecentTimes(history);
      Qps(times) == 0.0 || Qps(times) >= (|times| - 1) as real / 60.0
  {
    if |RecentTimes(history)| >= 2 {
      var times := RecentTimes(history);
      TimesSinceAreRecent(history, history[|history| - 1].time - MINUTE);
      var milliseconds := (times[|times| - 1] - times[0]) / TICKS_PER_MILLISECOND;
      if milliseconds != 0 {
        RateBound((|times| - 1) as real, milliseconds as real);
      }
    }
  }

  lemma RateBound(n: real, milliseconds: real)
    requires n >= 0.0 && 0.0 < milliseconds <= 60000.0
    ensures n / milliseconds * 1000.0 >= n / 60.0
  {
    assert n / milliseconds >= n / 60000.0 by {
      assert n / milliseconds * milliseconds == n;
      assert n / 60000.0 * milliseconds <= n;
    }
  }

  /** The rate times the duration is the number of intervals. */
  lemma QpsTimesDuration(times: seq<int>)
    ensures var milliseconds := if times == [] then 0 else (times[|times| - 1] - times[0]) / 1_000_000;
      if milliseconds == 0 then Qps(times) == 0.0
      else Qps(times) * milliseconds as real == (|times| - 1) as real * 1000.0
  {
    if |times| >= 2 {
      var milliseconds := (times[|times| - 1] - times[0]) / TICKS_PER_MILLISECOND;
      if milliseconds != 0 {
        QuotientTimes((|times| - 1) as real, milliseconds as real);
      }
    }
  }

  lemma QuotientTimes(n: real, d: real)
    requires d != 0.0
    ensures n / d * 1000.0 * d == n * 1000.0
  {
    assert n / d * d == n;
    assert n / d * 1000.0 * d == n / d * d * 1000.0;
  }

  // ---------- the collector ----------

  datatype Stats = Stats(
    totalRequests: nat, totalErrors: nat, errorRate: real, currentQps: real,
    avgLatency: real, p50: real, p95: real, p99: real, uptimeSeconds: int)

  function SumOf(s: seq<real>): real {
    if s == [] then 0.0 else SumOf(s[..|s| - 1]) + s[|s| - 1]
  }

  /** The sum, from its parts: of one latency, and of two stretches of the window. */
  lemma {:induction false} SumOfConcat(a: seq<real>, b: seq<real>, x: real)
    ensures SumOf([x]) == x && SumOf(a + b) == SumOf(a) + SumOf(b)
  {
    assert [x][..0] == [];
    if b == [] {
      assert a + b == a;
    } else {
      SumOfConcat(a, b[..|b| - 1], x);
      assert (a + b)[..|a + b| - 1] == a + b[..|b| - 1];
    }
  }

  lemma {:induction false} SumIsBetween(s: seq<real>, low: real, high: real)
    requires forall i :: 0 <= i < |s| ==> low <= s[i] <= high
    ensures low * |s| as real <= SumOf(s) <= high * |s| as real
  {
    if s != [] {
      var n := |s| - 1;
      SumIsBetween(s[..n], low, high);
      assert |s| as real == n as real + 1.0;
      assert low * |s| as real == low * n as real + low && high * |s| as real == high * n as real + high;
    }
  }

  /** The mean lies between the least and the greatest latency, and deviations from it cancel out. */
  lemma MeanIsBetween(latencies: seq<real>)
    requires latencies != []
    ensures var mean := SumOf(latencies) / |latencies| as real;
      && mean * |latencies| as real == SumOf(latencies)
      && Percentile(latencies, 0) <= mean <= Percentile(latencies, 100)
  {
    hide Percentile, SumOf;
    var n, sum := |latencies| as real, SumOf(latencies);
    var low, high := Percentile(latencies, 0), Percentile(latencies, 100);
    forall i | 0 <= i < |latencies| ensures low <= latencies[i] <= high {
      PercentilesAreOrdered(latencies, latencies[i]);
    }
    SumIsBetween(latencies, low, high);
    MeanBound(sum, n, low, high);
  }

  lemma MeanBound(sum: real, n: real, low: real, high: real)
    requires n > 0.0 && low * n <= sum <= high * n
    ensures sum / n * n == sum && low <= sum / n <= high
  {
    var mean := sum / n;
    assert mean * n == sum;
    assert (mean - low) * n >= 0.0 && (high - mean) * n >= 0.0;
  }

  class Metrics {
    var totalRequests: nat
    var totalErrors: nat
    var latencies: seq<real>
    var requestTimestamps: seq<int>
    const startTime: int
    ghost var history: seq<Request>  // every request recorded so far

    /** The windows are functions of the whole history. */
    ghost predicate Valid()
      reads this
    {
      && Chronological(history)
      && totalRequests == |history|
      && latencies == LastLatencies(history)
      && requestTimestamps == RecentTimes(history)
    }

    constructor (now: int)
      ensures Valid() && history == [] && totalErrors == 0 && startTime == now
    {
      totalRequests, totalErrors := 0, 0;
      latencies, requestTimestamps := [], [];
      startTime := now;
      history := [];
    }

    method RecordRequest(latency: real, now: int)
      requires Valid() && (history != [] ==> history[|history| - 1].time <= now)
      modifies this
      ensures Valid() && history == old(history) + [Request(latency, now)]
      ensures totalErrors == old(totalErrors)
    {
      hide TimesSince, PopBefore;
      totalRequests := totalRequests + 1;
      latencies := latencies + [latency];
      if |latencies| > MAX_LATENCIES {
        latencies := latencies[1..];
      }
      ghost var was, h := history, history + [Request(latency, now)];
      assert latencies == LastLatencies(h);
      requestTimestamps := requestTimestamps + [now];
      PopStep(was, latency, now);
      PopOldTimestamps(now - MINUTE);
      history := h;
    }

    method PopOldTimestamps(cutoff: int)
      modifies this`requestTimestamps
      ensures requestTimestamps == PopBefore(old(requestTimestamps), cutoff)
    {
      while requestTimestamps != [] && requestTimestamps[0] < cutoff
        invariant PopBefore(requestTimestamps, cutoff) == PopBefore(old(requestTimestamps), cutoff)
        decreases |requestTimestamps|
      {
        requestTimestamps := requestTimestamps[1..];
      }
    }

    method RecordError()
      requires Valid()
      modifies this`totalErrors
      ensures Valid() && totalErrors == old(totalErrors) + 1
    {
      totalErrors := totalErrors + 1;
    }

    method GetStats(now: int) returns (stats: Stats)
      requires Valid()
      ensures stats.totalRequests == |history| && stats.totalErrors == totalErrors
      ensures stats.errorRate == if history == [] then 0.0 else totalErrors as real / |history| as real * 100.0
      ensures stats.p50 == Percentile(LastLatencies(history), 50)
      ensures stats.p95 == Percentile(LastLatencies(history), 95)
      ensures stats.p99 == Percentile(LastLatencies(history), 99)
      ensures stats.avgLatency ==
        if history == [] then 0.0 else SumOf(LastLatencies(history)) / |LastLatencies(history)| as real
      ensures stats.currentQps == Qps(RecentTimes(history))
      ensures var times := RecentTimes(history);
        var milliseconds := if times == [] then 0 else (times[|times| - 1] - times[0]) / 1_000_000;
        if milliseconds == 0 then stats.currentQps == 0.0
        else stats.currentQps * milliseconds as real == (|times| - 1) as real * 1000.0
      ensures startTime <= now ==>
        var seconds := 1_000_000_000;
        stats.uptimeSeconds * seconds <= now - startTime < (stats.uptimeSeconds + 1) * seconds
    {
      hide Percentile, SumOf, Qps, RecentTimes, LastLatencies, Chronological;
      LastLatenciesAt(history);
      NoPercentile();
      stats := Stats(totalRequests, totalErrors, 0.0, 0.0, 0.0, 0.0, 0.0, 0.0, 0);
      if stats.totalRequests > 0 {
        stats := stats.(errorRate := stats.totalErrors as real / stats.totalRequests as real * 100.0);
      }
      if latencies != [] {
        stats := stats.(avgLatency := SumOf(latencies) / |latencies| as real,
          p50 := Percentile(latencies, 50), p95 := Percentile(latencies, 95), p99 := Percentile(latencies, 99));
      }
      stats := stats.(currentQps := Qps(requestTimestamps));
      QpsTimesDuration(requestTimestamps);
      stats := stats.(uptimeSeconds := (now - startTime) / (1000 * TICKS_PER_MILLISECOND));
    }
  }

  lemma NoPercentile()
    ensures forall percent: nat :: percent <= 100 ==> Percentile([], percent) == 0.0
  {}

  lemma NothingToPop(time: int, cutoff: int)
    requires cutoff <= time
    ensures PopBefore([time], cutoff) == [time]
  {}

  /** Appending the new time and popping by its cutoff gives the new window. */
  lemma PopStep(history: seq<Request>, latency: real, now: int)
    requires Chronological(history) && (history != [] ==> history[|history| - 1].time <= now)
    ensures var h := history + [Request(latency, now)];
      Chronological(h) && PopBefore(RecentTimes(history) + [now], now - MINUTE) == RecentTimes(h)
  {
    hide PopBefore;
    var h := history + [Request(latency, now)];
    assert h[..|history|] == history;
    if history == [] {
      assert h == [Request(latency, now)] && h[..0] == [];
      assert TimesSince(h, now - MINUTE) == [] + [now] == [now];
      NothingToPop(now, now - MINUTE);
    } else {
      var earlier := history[|history| - 1].time - MINUTE;
      assert TimesSince(h, earlier) == RecentTimes(history) + [now];
      PopBeforeIsFilter(h, earlier, now - MINUTE);
    }
  }
}
