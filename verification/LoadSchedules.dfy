/**
 When the load drivers submit requests (OpenLoopDriver and SaturationDriver in
 src/benchmarkservice/locustfile.py), and the expected requests a second that the report compares
 them with (_fault_expected_requests in src/benchmarkservice/reporting.py).
 */
module LoadSchedules {
  import opened BenchmarkConfig
  import opened Rounding
  import opened Sums

  /** The tolerance subtracted before a ceiling. */
  const TOLERANCE := 0.000000001

  /** ceil(rate * seconds - 1e-9): how many requests fall before `seconds`. */
  function DueBefore(rate: real, seconds: real): int {
    Ceil(rate * seconds - TOLERANCE)
  }

  // ----- One window of the saturation ladder -----

  function ScheduledCount(rate: real, duration: real): nat {
    if DueBefore(rate, duration) >= 0 then DueBefore(rate, duration) else 0
  }

  /** How many ordinals worker `w` of `n` gets out of `count`. */
  function OrdinalsOf(count: nat, n: nat, w: nat): nat
    requires n > 0
  {
    if w >= count then 0 else (count - w + n - 1) / n
  }

  datatype Submission = Submission(ordinal: nat, offset: real, spawned: bool)

  lemma DivModUnique(n: nat, k: nat, w: nat)
    requires w < n
    ensures (w + k * n) / n == k && (w + k * n) % n == w
  {
    var x := w + k * n;
    var q := x / n;
    assert x == q * n + x % n;
    assert q > k ==> q * n >= (k + 1) * n == k * n + n;
    assert q < k ==> q * n <= (k - 1) * n == k * n - n;
  }

  lemma CeilingOfShare(n: nat, q: nat, r: nat, w: nat)
    requires r < n && w < n
    ensures (q * n + r - w + n - 1) / n == if w < r then q + 1 else q
  {
    NextProduct(n, q);
    if w < r {
      DivModUnique(n, q + 1, r - w - 1);
    } else {
      DivModUnique(n, q, r - w + n - 1);
    }
  }

  /** The counts are those of sharing `count` like users: one more for the first count % n workers. */
  lemma OrdinalsAreShares(count: nat, n: nat, w: nat)
    requires w < n
    ensures OrdinalsOf(count, n, w) == UserShare(count, n, w)
  {
    var q, r := count / n, count % n;
    assert count == q * n + r;
    CeilingOfShare(n, q, r, w);
    BelowProduct(n, q, r, w, 0);
  }

  lemma NextProduct(n: nat, q: int)
    ensures (q + 1) * n == q * n + n
  {
  }

  lemma NextMultiple(n: nat, a: int, b: int)
    requires a < b
    ensures a * n + n <= b * n
  {
    var d := b - a - 1;
    assert b * n == (a + 1 + d) * n == a * n + n + d * n;
    assert d * n >= 0;
  }

  lemma BelowProduct(n: nat, q: int, r: int, w: int, k: int)
    requires 0 <= w < n && 0 <= r < n
    ensures w + k * n < q * n + r <==> k < q || (k == q && w < r)
  {
    if k > q {
      NextMultiple(n, q, k);
    } else if k < q {
      NextMultiple(n, k, q);
    }
  }

  lemma NextOrdinal(count: nat, n: nat, w: nat, k: nat)
    requires w < n
    ensures w + k * n < count <==> k < OrdinalsOf(count, n, w)
  {
    OrdinalsAreShares(count, n, w);
    BelowProduct(n, count / n, count % n, w, k);
  }

  ghost predicate SubmissionOk(rate: real, duration: real, n: nat, w: nat, spawned: bool, k: nat,
      submission: Submission) {
    && submission.ordinal == w + k * n < ScheduledCount(rate, duration)
    && submission.offset * rate == submission.ordinal as real
    && 0.0 <= submission.offset < duration
    && (submission.spawned <==> spawned)
  }

  /** _schedule_window: worker `w` of `n` submits every n-th ordinal, at offset ordinal / rate, all of
      them inside the window. `active(k)` is how many transactions are still running when it comes
      to its k-th one; at the concurrency limit the ordinal is recorded as generator saturation
      instead of being spawned. */
  method ScheduleWindow(rate: real, duration: real, n: nat, w: nat, concurrency: nat, active: nat -> nat)
    returns (submissions: seq<Submission>)
    requires rate > 0.0 && w < n
    ensures |submissions| == OrdinalsOf(ScheduledCount(rate, duration), n, w)
    ensures forall k: nat :: k < |submissions| ==>
              SubmissionOk(rate, duration, n, w, active(k) < concurrency, k, submissions[k])
    ensures CoversWindow(rate, duration, n, w, submissions)
  {
    var count := ScheduledCount(rate, duration);
    submissions := [];
    var ordinal := w;
    while ordinal < count
      invariant ordinal == w + |submissions| * n
      invariant |submissions| <= OrdinalsOf(count, n, w)
      invariant forall k: nat :: k < |submissions| ==>
                  SubmissionOk(rate, duration, n, w, active(k) < concurrency, k, submissions[k])
      decreases count - ordinal
    {
      ghost var k := |submissions|;
      NextOrdinal(count, n, w, k);
      OffsetInWindow(rate, duration, ordinal);
      assert w + (k + 1) * n == ordinal + n;
      submissions := submissions + [Submission(ordinal, ordinal as real / rate, active(|submissions|) < concurrency)];
      ordinal := ordinal + n;
    }
    NextOrdinal(count, n, w, |submissions|);
    WindowIsCovered(rate, duration, n, w, submissions);
  }

  /** A window of `duration` seconds at `rate` has the ordinals below rate * duration, less 1e-9. */
  predicate InWindow(rate: real, duration: real, ordinal: nat) {
    (ordinal as real) < rate * duration - 0.000000001
  }

  predicate Submits(submissions: seq<Submission>, ordinal: nat) {
    exists k :: 0 <= k < |submissions| && submissions[k].ordinal == ordinal
  }

  /** A worker submits exactly the ordinals of the window that are its own, in increasing order and so
      once each, at their times. */
  ghost predicate CoversWindow(rate: real, duration: real, n: nat, w: nat, submissions: seq<Submission>)
    requires n > 0
  {
    && (forall ordinal: nat ::
          Submits(submissions, ordinal) <==> ordinal % n == w && InWindow(rate, duration, ordinal))
    && (forall j, k :: 0 <= j < k < |submissions| ==> submissions[j].ordinal < submissions[k].ordinal)
    && (forall k :: 0 <= k < |submissions| ==> submissions[k].offset * rate == submissions[k].ordinal as real)
  }

  lemma InWindowIff(rate: real, duration: real, ordinal: nat)
    ensures InWindow(rate, duration, ordinal) <==> ordinal < ScheduledCount(rate, duration)
  {
    BelowCeil(ordinal, rate * duration - TOLERANCE);
  }

  lemma WindowIsCovered(rate: real, duration: real, n: nat, w: nat, submissions: seq<Submission>)
    requires rate > 0.0 && w < n && |submissions| == OrdinalsOf(ScheduledCount(rate, duration), n, w)
    requires forall k: nat :: k < |submissions| ==>
      && submissions[k].ordinal == w + k * n < ScheduledCount(rate, duration)
      && submissions[k].offset * rate == submissions[k].ordinal as real
    ensures CoversWindow(rate, duration, n, w, submissions)
  {
    forall ordinal: nat
      ensures Submits(submissions, ordinal) <==> ordinal % n == w && InWindow(rate, duration, ordinal)
    {
      InWindowIff(rate, duration, ordinal);
      SubmittedIff(ScheduledCount(rate, duration), n, w, submissions, ordinal);
    }
    forall j, k | 0 <= j < k < |submissions|
      ensures submissions[j].ordinal < submissions[k].ordinal
    {
      NextMultiple(n, j, k);
    }
  }

  lemma SubmittedIff(count: nat, n: nat, w: nat, submissions: seq<Submission>, ordinal: nat)
    requires w < n && |submissions| == OrdinalsOf(count, n, w)
    requires forall k: nat :: k < |submissions| ==> submissions[k].ordinal == w + k * n < count
    ensures Submits(submissions, ordinal) <==> ordinal % n == w && ordinal < count
  {
    if Submits(submissions, ordinal) {
      var k :| 0 <= k < |submissions| && submissions[k].ordinal == ordinal;
      DivModUnique(n, k, w);
    }
    if ordinal % n == w && ordinal < count {
      EveryOrdinalOnce(count, n, ordinal, w, ordinal / n);
      assert submissions[ordinal / n].ordinal == ordinal;
    }
  }

  /** The windows of all workers together submit an ordinal exactly if it is in the window, and then
      exactly one worker does, once. */
  lemma WindowsSubmitOnce(rate: real, duration: real, windows: seq<seq<Submission>>, ordinal: nat)
    requires windows != []
    requires forall w :: 0 <= w < |windows| ==> CoversWindow(rate, duration, |windows|, w, windows[w])
    ensures (exists w :: 0 <= w < |windows| && Submits(windows[w], ordinal)) <==> InWindow(rate, duration, ordinal)
    ensures forall v, w | 0 <= v < |windows| && 0 <= w < |windows| ::
              Submits(windows[v], ordinal) && Submits(windows[w], ordinal) ==> v == w
    ensures forall w, j, k | 0 <= w < |windows| && 0 <= j < |windows[w]| && 0 <= k < |windows[w]| ::
              windows[w][j].ordinal == ordinal == windows[w][k].ordinal ==> j == k
  {
    assert forall w :: 0 <= w < |windows| ==>
      (Submits(windows[w], ordinal) <==> ordinal % |windows| == w && InWindow(rate, duration, ordinal));
    if InWindow(rate, duration, ordinal) {
      assert Submits(windows[ordinal % |windows|], ordinal);
    }
  }

  lemma OffsetInWindow(rate: real, duration: real, ordinal: nat)
    requires rate > 0.0 && ordinal < ScheduledCount(rate, duration)
    ensures var offset := ordinal as real / rate; offset * rate == ordinal as real && 0.0 <= offset < duration
  {
    BelowCeil(ordinal, rate * duration - TOLERANCE);
    DivLess(ordinal as real, rate, duration);
    var offset := ordinal as real / rate;
    MulStrict(rate, offset, 0.0);
  }

  /** Every ordinal of the window belongs to exactly one worker. */
  lemma EveryOrdinalOnce(count: nat, n: nat, ordinal: nat, w: nat, k: nat)
    requires ordinal < count && w < n
    ensures k < OrdinalsOf(count, n, w) && ordinal == w + k * n <==> w == ordinal % n && k == ordinal / n
  {
    NextOrdinal(count, n, w, k);
    assert ordinal == ordinal % n + ordinal / n * n;
    DivModUnique(n, k, w);
  }

  function WindowCounts(count: nat, n: nat): seq<int>
    requires n > 0
  {
    seq(n, w requires 0 <= w < n => OrdinalsOf(count, n, w))
  }

  /** The workers' counts add up to the window's and differ by at most one. */
  lemma WindowIsShared(count: nat, n: nat)
    requires n > 0
    ensures Sum(WindowCounts(count, n)) == count
    ensures forall v: nat, w: nat :: v < n && w < n ==> OrdinalsOf(count, n, v) - OrdinalsOf(count, n, w) <= 1
  {
    forall w: nat | w < n
      ensures OrdinalsOf(count, n, w) == UserShare(count, n, w)
    {
      OrdinalsAreShares(count, n, w);
    }
    assert WindowCounts(count, n) == UserShares(count, n, n);
    SumOfUserShares(count, n, n);
    assert n * (count / n) + count % n == count;
  }

  // ----- The whole ladder -----

  datatype Rung = Rung(duration: int, rate: real, final: bool, maximumReached: bool)

  function RungRate(config: Config, rung: nat): real {
    var rate := config.saturationStartRate + rung as real * SATURATION_STEP_RATE;
    if config.saturationMaxRate <= rate then config.saturationMaxRate else rate
  }

  function Durations(rungs: seq<Rung>): seq<int> {
    seq(|rungs|, k requires 0 <= k < |rungs| => rungs[k].duration)
  }

  /** Ten requests a second more on each rung, up to the maximum rate. */
  predicate IsRungRate(config: Config, k: nat, rate: real) {
    var climbed := config.saturationStartRate + 10.0 * k as real;
    && (climbed <= config.saturationMaxRate ==> rate == climbed)
    && (climbed > config.saturationMaxRate ==> rate == config.saturationMaxRate)
  }

  /** Rung `k` of a ladder whose last rung is `last`, -1 while it is not known. */
  ghost predicate RungOk(config: Config, k: nat, last: int, rung: Rung) {
    && 0 < rung.duration <= config.saturationStepSeconds
    && (k != last ==> rung.duration == config.saturationStepSeconds)
    && rung.rate == RungRate(config, k) && IsRungRate(config, k, rung.rate)
    && (rung.final <==> k == last)
    && (rung.maximumReached <==> rung.rate == config.saturationMaxRate)
  }

  /** The loop of SaturationDriver.schedule over the measured rungs; the decision to stop is taken
      exactly on the final rung. Whole seconds are represented exactly. */
  method RunLadder(config: Config) returns (rungs: seq<Rung>)
    requires ValidRequest(config)
    ensures |rungs| == StepCount(config) > 0
    ensures Sum(Durations(rungs)) == config.durationSeconds
    ensures forall k: nat :: k < |rungs| ==> RungOk(config, k, |rungs| - 1, rungs[k])
    ensures IsLadder(config, rungs)
  {
    var step := config.saturationStepSeconds;
    var remaining := config.durationSeconds;
    rungs := [];
    var rung := 0;
    while remaining > 0
      invariant rung == |rungs| && 0 <= remaining <= config.durationSeconds && (remaining == 0 ==> rung > 0)
      invariant remaining > 0 ==> remaining == config.durationSeconds - FullRungs(step, rung)
      invariant remaining == 0 ==> FullRungs(step, rung - 1) + rungs[rung - 1].duration == config.durationSeconds
      invariant Sum(Durations(rungs)) == config.durationSeconds - remaining
      invariant forall k: nat :: k < |rungs| ==> RungOk(config, k, if remaining == 0 then rung - 1 else -1, rungs[k])
      decreases remaining
    {
      var duration := if step <= remaining then step else remaining;
      var rate := RungRate(config, rung);
      remaining := remaining - duration;
      var next := Rung(duration, rate, remaining <= 0, rate >= config.saturationMaxRate);
      SumSnoc(Durations(rungs), duration);
      assert Durations(rungs + [next]) == Durations(rungs) + [duration];
      rungs := rungs + [next];
      rung := rung + 1;
    }
    FullRungsIs(step, rung - 1);
    StepCountIs(config, rung, rungs[rung - 1].duration);
  }

  /** The measured part of SaturationDriver.schedule on worker `w` of `n`: the ladder, and a window on
      each of its rungs. `active(r)(k)` is how many transactions still run at the k-th ordinal of rung
      r. */
  method ScheduleLadder(config: Config, n: nat, w: nat, concurrency: nat, active: nat -> nat -> nat)
    returns (ladder: seq<Rung>, windows: seq<seq<Submission>>)
    requires ValidRequest(config) && w < n
    ensures IsLadder(config, ladder) && |windows| == |ladder|
    ensures forall r :: 0 <= r < |ladder| ==>
              CoversWindow(ladder[r].rate, ladder[r].duration as real, n, w, windows[r])
  {
    ladder := RunLadder(config);
    windows := [];
    for r := 0 to |ladder|
      invariant |windows| == r
      invariant forall q :: 0 <= q < r ==>
                  CoversWindow(ladder[q].rate, ladder[q].duration as real, n, w, windows[q])
    {
      assert RungOk(config, r, |ladder| - 1, ladder[r]);
      var window := ScheduleWindow(ladder[r].rate, ladder[r].duration as real, n, w, concurrency, active(r));
      windows := windows + [window];
    }
  }

  /** The ladder a run climbs: as many rungs as configured, for the configured time, at the rates of
      the ladder, and only the last one final. */
  ghost predicate IsLadder(config: Config, ladder: seq<Rung>)
    requires ValidRequest(config)
  {
    && |ladder| == StepCount(config) > 0
    && Sum(Durations(ladder)) == config.durationSeconds
    && forall k: nat :: k < |ladder| ==> RungOk(config, k, |ladder| - 1, ladder[k])
  }

  /** On every rung of the ladder every ordinal below rate * duration - 1e-9 is submitted by exactly
      one of the workers, once, and no other is submitted at all. `windows[w]` are what worker w's
      ScheduleLadder returns. */
  lemma LadderSubmitsOnce(config: Config, ladder: seq<Rung>, windows: seq<seq<seq<Submission>>>, r: nat, ordinal: nat)
    requires ValidRequest(config) && IsLadder(config, ladder) && r < |ladder| && windows != []
    requires forall w :: 0 <= w < |windows| ==>
      && |windows[w]| == |ladder|
      && CoversWindow(ladder[r].rate, ladder[r].duration as real, |windows|, w, windows[w][r])
    ensures (exists w :: 0 <= w < |windows| && Submits(windows[w][r], ordinal))
            <==> InWindow(ladder[r].rate, ladder[r].duration as real, ordinal)
    ensures forall v, w | 0 <= v < |windows| && 0 <= w < |windows| ::
              Submits(windows[v][r], ordinal) && Submits(windows[w][r], ordinal) ==> v == w
  {
    var column := seq(|windows|, w requires 0 <= w < |windows| => windows[w][r]);
    WindowsSubmitOnce(ladder[r].rate, ladder[r].duration as real, column, ordinal);
    assert forall w :: 0 <= w < |windows| ==> column[w] == windows[w][r];
  }

  /** The length of the first n rungs when all of them are full. */
  function FullRungs(step: int, n: nat): int {
    if n == 0 then 0 else FullRungs(step, n - 1) + step
  }

  lemma {:induction false} FullRungsIs(step: int, n: nat)
    ensures FullRungs(step, n) == n * step
  {
    if n > 0 {
      FullRungsIs(step, n - 1);
      assert n * step == (n - 1) * step + step;
    }
  }

  lemma StepCountIs(config: Config, rungs: nat, last: int)
    requires config.saturationStepSeconds > 0 && rungs > 0 && 0 < last <= config.saturationStepSeconds
    requires (rungs - 1) * config.saturationStepSeconds + last == config.durationSeconds
    ensures StepCount(config) == rungs
  {
    var s := config.saturationStepSeconds as real;
    var x := config.durationSeconds as real / s;
    assert x * s == config.durationSeconds as real;
    var before := rungs as real - 1.0;
    assert ((rungs - 1) * config.saturationStepSeconds) as real == s * before;
    assert s * x == s * before + last as real;
    assert s * (rungs as real) == s * before + s;
    MulStrict(s, before, x);
    MulStrict(s, rungs as real, x);
    CeilIs(x, rungs);
  }

  /** No rung exceeds the effective maximum rate that sizes the run, and the last rung reaches it. */
  lemma LadderStaysBelowEffectiveMax(config: Config, rung: nat)
    requires ValidRequest(config) && rung < StepCount(config)
    ensures RungRate(config, rung) <= EffectiveMaxRate(config)
    ensures rung == StepCount(config) - 1 ==> RungRate(config, rung) == EffectiveMaxRate(config)
  {
    assert rung as real <= (StepCount(config) - 1) as real;
  }

  // ----- The open-loop driver and the report's expectation -----

  /** OpenLoopDriver.schedule comes to index 0, 1, ... at index / rate while that is within the window:
      ceil(rate * seconds) times. At the concurrency limit the index is recorded as generator
      saturation instead of being spawned; `active(k)` is how many transactions still run then. */
  method ScheduleOpenLoop(rate: real, seconds: int, concurrency: nat, active: nat -> nat)
    returns (submissions: seq<Submission>)
    requires rate > 0.0 && seconds >= 0
    ensures |submissions| == Ceil(rate * seconds as real)
    ensures forall k: nat :: k < |submissions| ==>
              OpenSubmissionOk(rate, seconds, active(k) < concurrency, k, submissions[k])
  {
    var interval := 1.0 / rate;
    ghost var due := rate * seconds as real;
    MulMonotone(rate, 0.0, seconds as real);
    submissions := [];
    var index := 0;
    while index as real * interval < seconds as real
      invariant index == |submissions| <= Ceil(due)
      invariant forall k: nat :: k < |submissions| ==>
                  OpenSubmissionOk(rate, seconds, active(k) < concurrency, k, submissions[k])
      decreases Ceil(due) - index
    {
      IndexInWindow(rate, seconds as real, index);
      BelowCeil(index, due);
      submissions := submissions + [Submission(index, index as real * interval, active(index) < concurrency)];
      index := index + 1;
    }
    IndexInWindow(rate, seconds as real, index);
    BelowCeil(index, due);
  }

  ghost predicate OpenSubmissionOk(rate: real, seconds: int, spawned: bool, k: nat, submission: Submission)
    requires rate > 0.0
  {
    && submission.ordinal == k
    && submission.offset * rate == k as real
    && 0.0 <= submission.offset < seconds as real
    && (submission.spawned <==> spawned)
  }

  lemma IndexInWindow(rate: real, seconds: real, index: nat)
    requires rate > 0.0
    ensures index as real * (1.0 / rate) < seconds <==> (index as real) < rate * seconds
    ensures index as real * (1.0 / rate) * rate == index as real && index as real * (1.0 / rate) >= 0.0
  {
    var x := index as real * (1.0 / rate);
    assert (1.0 / rate) * rate == 1.0;
    assert x * rate == index as real * ((1.0 / rate) * rate) == index as real;
    MulStrict(rate, x, seconds);
  }

  function Clip(seconds: int, limit: int): int {
    if seconds <= limit then seconds else limit
  }

  function ExpectedOfWorker(rate: real, start: int, end: int): nat {
    var due := DueBefore(rate, end as real) - DueBefore(rate, start as real);
    if due >= 0 then due else 0
  }

  /** The arrival rates of all workers. */
  function WorkerRates(config: Config): (rates: seq<real>)
    requires ValidRequest(config)
    ensures |rates| == WorkerCount(config)
  {
    seq(WorkerCount(config), index requires 0 <= index < WorkerCount(config) =>
        ForWorker(config, index).value.arrivalRate)
  }

  function ExpectedOfWorkers(rates: seq<real>, start: int, end: int): nat {
    if rates == [] then 0
    else ExpectedOfWorkers(rates[..|rates| - 1], start, end) + ExpectedOfWorker(rates[|rates| - 1], start, end)
  }

  /** _fault_expected_requests. */
  function FaultExpectedRequests(config: Config, second: int): nat
    requires ValidRequest(config)
  {
    var start, end := Clip(second, SubmissionSeconds(config)), Clip(second + 1, SubmissionSeconds(config));
    if end <= start then 0 else ExpectedOfWorkers(WorkerRates(config), start, end)
  }

  function TotalExpected(config: Config, seconds: nat): nat
    requires ValidRequest(config)
  {
    if seconds == 0 then 0 else TotalExpected(config, seconds - 1) + FaultExpectedRequests(config, seconds - 1)
  }

  function WorkersDue(rates: seq<real>, seconds: int): int {
    if rates == [] then 0
    else WorkersDue(rates[..|rates| - 1], seconds) + DueBefore(rates[|rates| - 1], seconds as real)
  }

  lemma WorkerRatesArePositive(config: Config)
    requires ValidRequest(config)
    ensures forall k :: 0 <= k < |WorkerRates(config)| ==> WorkerRates(config)[k] > 0.0
  {
    forall k | 0 <= k < WorkerCount(config)
      ensures ForWorker(config, k).value.arrivalRate > 0.0
    {
      if IsOpen(config) {
        OpenLoadIsConserved(config, k);
      }
    }
  }

  /** The inner clamp never fires: the due counts are monotone in time. */
  lemma ClampNeverFires(rate: real, start: int, end: int)
    requires rate > 0.0 && start <= end
    ensures ExpectedOfWorker(rate, start, end) == DueBefore(rate, end as real) - DueBefore(rate, start as real)
  {
    MulMonotone(rate, start as real, end as real);
    CeilMonotone(rate * start as real - TOLERANCE, rate * end as real - TOLERANCE);
  }

  lemma {:induction false} WorkersTelescope(rates: seq<real>, start: int, end: int)
    requires start <= end && forall k :: 0 <= k < |rates| ==> rates[k] > 0.0
    ensures ExpectedOfWorkers(rates, start, end) == WorkersDue(rates, end) - WorkersDue(rates, start)
    decreases |rates|
  {
    if rates != [] {
      WorkersTelescope(rates[..|rates| - 1], start, end);
      ClampNeverFires(rates[|rates| - 1], start, end);
    }
  }

  lemma {:induction false} NothingDueAtStart(rates: seq<real>)
    ensures WorkersDue(rates, 0) == 0
    decreases |rates|
  {
    if rates != [] {
      NothingDueAtStart(rates[..|rates| - 1]);
      var rate := rates[|rates| - 1];
      assert rate * 0.0 == 0.0;
      CeilIs(rate * 0.0 - TOLERANCE, 0);
    }
  }

  /** The expected requests of the first `seconds` seconds telescope to what all workers have due
      by then, and nothing is expected after the submission window. */
  lemma {:induction false} ExpectationTelescopes(config: Config, seconds: nat)
    requires ValidRequest(config)
    ensures TotalExpected(config, seconds) == WorkersDue(WorkerRates(config), Clip(seconds, SubmissionSeconds(config)))
    decreases seconds
  {
    var limit := SubmissionSeconds(config);
    if seconds == 0 {
      NothingDueAtStart(WorkerRates(config));
    } else {
      ExpectationTelescopes(config, seconds - 1);
      WorkerRatesArePositive(config);
      WorkersTelescope(WorkerRates(config), Clip(seconds - 1, limit), Clip(seconds, limit));
    }
  }

  /** What ScheduleOpenLoop submits on all workers together. */
  function WorkersScheduled(rates: seq<real>, seconds: int): int {
    if rates == [] then 0
    else WorkersScheduled(rates[..|rates| - 1], seconds) + Ceil(rates[|rates| - 1] * seconds as real)
  }

  /** The amount by which a real number exceeds the largest integer strictly below it. */
  function Excess(x: real): real {
    x - (Ceil(x) - 1) as real
  }

  predicate ToleranceHits(rate: real, seconds: int) {
    Excess(rate * seconds as real) <= TOLERANCE
  }

  /** Expectation and schedule of one worker differ, by one, exactly when rate * seconds exceeds an
      integer by a positive amount of at most 1e-9. */
  lemma DueEqualsScheduledIff(rate: real, seconds: int)
    ensures DueBefore(rate, seconds as real)
        == Ceil(rate * seconds as real) - (if ToleranceHits(rate, seconds) then 1 else 0)
  {
    var x := rate * seconds as real;
    var n := Ceil(x);
    if Excess(x) <= TOLERANCE {
      CeilIs(x - TOLERANCE, n - 1);
    } else {
      CeilIs(x - TOLERANCE, n);
    }
  }

  lemma {:induction false} DueNeverExceedsScheduled(rates: seq<real>, seconds: int)
    ensures WorkersDue(rates, seconds) <= WorkersScheduled(rates, seconds)
    ensures WorkersDue(rates, seconds) == WorkersScheduled(rates, seconds)
            <==> forall k :: 0 <= k < |rates| ==> !ToleranceHits(rates[k], seconds)
    decreases |rates|
  {
    if rates != [] {
      DueNeverExceedsScheduled(rates[..|rates| - 1], seconds);
      DueEqualsScheduledIff(rates[|rates| - 1], seconds);
    }
  }

  /** The report's expectation over the whole run is what the open-loop drivers schedule, except
      when some worker's rate * seconds exceeds an integer by a positive amount of at most 1e-9. */
  lemma ExpectationMatchesScheduleIff(config: Config, seconds: nat)
    requires ValidRequest(config) && seconds >= SubmissionSeconds(config)
    ensures TotalExpected(config, seconds) == WorkersScheduled(WorkerRates(config), SubmissionSeconds(config))
            <==> forall k :: 0 <= k < WorkerCount(config) ==>
                !ToleranceHits(ForWorker(config, k).value.arrivalRate, SubmissionSeconds(config))
  {
    ExpectationTelescopes(config, seconds);
    DueNeverExceedsScheduled(WorkerRates(config), SubmissionSeconds(config));
  }

  /** The exception is real: with one worker at 1.0000000001 requests a second and one second of
      load, two requests are scheduled and one is expected. */
  lemma ExpectationCanMissOne() returns (config: Config)
    ensures ValidRequest(config) && IsOpen(config) && SubmissionSeconds(config) == 1 && WorkerCount(config) == 1
    ensures TotalExpected(config, 1) == 1 && WorkersScheduled(WorkerRates(config), 1) == 2
  {
    var rate := 1.0000000001;
    config := Config(Open, 0, 1, 1, 1, 1.0, rate, 1.0, 1.0, 10, 0, false, false);
    CeilIs(rate / MAX_OPEN_ARRIVAL_RATE_PER_WORKER, 1);
    assert WorkerCount(config) == 1;
    assert ForWorker(config, 0).value.arrivalRate == rate;
    assert WorkerRates(config) == [rate];
    assert [rate][..0] == [];
    ExpectationTelescopes(config, 1);
    CeilIs(rate * 1.0 - TOLERANCE, 1);
    CeilIs(rate * 1.0, 2);
  }
}
