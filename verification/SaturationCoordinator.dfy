/**
 One worker's side of the rung barrier: SaturationCoordinator.finish_rung and evaluate_rung in
 src/benchmarkservice/saturation.py. SaturationBarrier interleaves all workers; here one worker
 runs while the others add their objects to the backend at any time.
 */
module SaturationCoordinator {
  import opened Options
  import opened Rounding
  import opened Sums

  const RAPID_PENDING_GROWTH_PER_SECOND := 10.0

  const MINIMUM_SECONDS := 0.001

  /** A reading of the observer of completed orders; the total may be missing. */
  datatype Observed = Observed(observer: string, total: Option<int>)

  datatype Progress = Progress(worker: nat, completed: int, before: Option<Observed>, after: Option<Observed>)

  /** What a worker measured over its window. */
  datatype Window = Window(
    rung: nat, started: real, ended: real, completedBefore: int, completedAfter: int,
    processedBefore: Option<Observed>, processedAfter: Option<Observed>,
    pendingStart: Option<real>, pendingEnd: Option<real>, finalRung: bool)

  datatype Reason = PendingIncreasingRapidly | GoodputStoppedIncreasing

  datatype Decision = Decision(rung: nat, completed: int, processed: Option<int>, goodput: Option<real>,
                               reason: Option<Reason>, stop: bool)

  function Seconds(window: Window): real {
    if window.ended - window.started >= MINIMUM_SECONDS then window.ended - window.started else MINIMUM_SECONDS
  }

  function OwnProgress(worker: nat, window: Window): Progress {
    var completed := window.completedAfter - window.completedBefore;
    Progress(worker, if completed >= 0 then completed else 0, window.processedBefore, window.processedAfter)
  }

  function TotalOr(observed: Observed, default: int): int {
    if observed.total.Some? then observed.total.value else default
  }

  /** The processed count by the first worker that has both readings; none if its observer changed or
      went back. */
  function Processed(progresses: seq<Progress>): Option<int> {
    if progresses == [] then None
    else if progresses[0].before.None? || progresses[0].after.None? then Processed(progresses[1..])
    else
      var before, after := progresses[0].before.value, progresses[0].after.value;
      if before.observer != after.observer || TotalOr(after, -1) < TotalOr(before, 0) then None
      else Some(TotalOr(after, 0) - TotalOr(before, 0))
  }

  function Completed(progresses: seq<Progress>): seq<int> {
    seq(|progresses|, i requires 0 <= i < |progresses| => progresses[i].completed)
  }

  /** How fast the backlog grew, a second, if it was measured. */
  function PendingGrowth(window: Window): Option<real> {
    if window.pendingStart.Some? && window.pendingEnd.Some? then
      Some((window.pendingEnd.value - window.pendingStart.value) / Seconds(window))
    else None
  }

  /** evaluate_rung on what finish_rung gathered. */
  function Evaluate(nats: bool, window: Window, progresses: seq<Progress>, previous: Option<real>): Decision {
    var completed := Sum(Completed(progresses));
    var processed := if nats then Processed(progresses) else Some(completed);
    var goodput := if processed.Some? then Some(processed.value as real / Seconds(window)) else None;
    var growth := PendingGrowth(window);
    var growing := nats && growth.Some? && growth.value >= RAPID_PENDING_GROWTH_PER_SECOND;
    var flat := previous.Some? && goodput.Some? && goodput.value <= previous.value;
    Decision(window.rung, completed, processed, goodput,
             if growing then Some(PendingIncreasingRapidly) else if flat then Some(GoodputStoppedIncreasing) else None,
             window.finalRung)
  }

  // ----- What a decision means -----

  /** What a worker posts: the orders that completed between its two readings of the count, none if
      the count went back, and its readings of the observer. */
  predicate IsProgressOf(own: Progress, worker: nat, window: Window) {
    && own.worker == worker && own.before == window.processedBefore && own.after == window.processedAfter
    && (window.completedAfter >= window.completedBefore ==>
          own.completed == window.completedAfter - window.completedBefore)
    && (window.completedAfter < window.completedBefore ==> own.completed == 0)
  }

  predicate HasBoth(progress: Progress) {
    progress.before.Some? && progress.after.Some?
  }

  predicate IsFirstWithBoth(progresses: seq<Progress>, i: nat) {
    i < |progresses| && HasBoth(progresses[i]) && forall j :: 0 <= j < i ==> !HasBoth(progresses[j])
  }

  /** Two readings of one observer whose total did not go back, a missing total being 0 and a missing
      second one having gone back. */
  predicate Comparable(before: Observed, after: Observed) {
    && before.observer == after.observer
    && (before.total.Some? && after.total.Some? ==> before.total.value <= after.total.value)
    && (before.total.None? && after.total.Some? ==> 0 <= after.total.value)
    && (after.total.None? ==> before.total.Some? && before.total.value <= -1)
  }

  /** How many orders the observer saw: by the first worker that has both readings. */
  ghost predicate ExplainsProcessed(progresses: seq<Progress>, processed: Option<int>) {
    && ((forall i :: 0 <= i < |progresses| ==> !HasBoth(progresses[i])) ==> processed == None)
    && forall i: nat :: IsFirstWithBoth(progresses, i) ==>
         var before, after := progresses[i].before.value, progresses[i].after.value;
         && (processed.Some? <==> Comparable(before, after))
         && (processed.Some? ==> processed.value == TotalOr(after, 0) - TotalOr(before, 0))
  }

  /** The decision on a rung, told apart from how it is computed. */
  ghost predicate Explains(
    nats: bool, window: Window, progresses: seq<Progress>, previous: Option<real>, decision: Decision)
  {
    && decision.rung == window.rung && decision.stop == window.finalRung
    && ExplainsCounts(nats, progresses, decision)
    && exists seconds: real :: LastsFor(window, seconds) && ExplainsRates(nats, window, seconds, previous, decision)
  }

  /** It counts what all workers completed, and what the observer saw processed. */
  ghost predicate ExplainsCounts(nats: bool, progresses: seq<Progress>, decision: Decision) {
    && (forall counts: seq<int> :: IsCounts(progresses, counts) ==> decision.completed == Sum(counts))
    && if nats then ExplainsProcessed(progresses, decision.processed)
       else decision.processed == Some(decision.completed)
  }

  /** Goodput is processed orders a second, and stops increasing when it is no higher than before; a
      backlog grows rapidly at ten messages a second or more, which is reported first. */
  predicate ExplainsRates(nats: bool, window: Window, seconds: real, previous: Option<real>, decision: Decision) {
    && (decision.goodput.Some? <==> decision.processed.Some?)
    && (decision.goodput.Some? ==> decision.goodput.value * seconds == decision.processed.value as real)
    && (decision.reason == Some(PendingIncreasingRapidly) <==>
          nats && window.pendingStart.Some? && window.pendingEnd.Some?
          && window.pendingEnd.value - window.pendingStart.value >= 10.0 * seconds)
    && (decision.reason == Some(GoodputStoppedIncreasing) <==>
          decision.reason != Some(PendingIncreasingRapidly)
          && previous.Some? && decision.goodput.Some? && decision.goodput.value <= previous.value)
  }

  /** How long a window lasted: a millisecond at least. */
  predicate LastsFor(window: Window, seconds: real) {
    && seconds >= 0.001 && seconds >= window.ended - window.started
    && (seconds == 0.001 || seconds == window.ended - window.started)
  }

  predicate IsCounts(progresses: seq<Progress>, counts: seq<int>) {
    |counts| == |progresses| && forall i :: 0 <= i < |counts| ==> counts[i] == progresses[i].completed
  }

  lemma {:induction false} ProcessedExplained(progresses: seq<Progress>)
    ensures ExplainsProcessed(progresses, Processed(progresses))
    decreases |progresses|
  {
    if progresses != [] && !HasBoth(progresses[0]) {
      var rest := progresses[1..];
      ProcessedExplained(rest);
      forall i: nat | IsFirstWithBoth(progresses, i)
        ensures IsFirstWithBoth(rest, i - 1) && progresses[i] == rest[i - 1]
      {
      }
    }
  }

  lemma GrowthIs(window: Window)
    requires window.pendingStart.Some? && window.pendingEnd.Some?
    ensures PendingGrowth(window).value >= RAPID_PENDING_GROWTH_PER_SECOND
            <==> window.pendingEnd.value - window.pendingStart.value >= 10.0 * Seconds(window)
  {
    var growth, seconds := window.pendingEnd.value - window.pendingStart.value, Seconds(window);
    DivLess(growth, seconds, 10.0);
  }

  lemma EvaluateCounts(nats: bool, window: Window, progresses: seq<Progress>, previous: Option<real>)
    ensures ExplainsCounts(nats, progresses, Evaluate(nats, window, progresses, previous))
  {
    var decision := Evaluate(nats, window, progresses, previous);
    forall counts: seq<int> | IsCounts(progresses, counts)
      ensures decision.completed == Sum(counts)
    {
      assert counts == Completed(progresses);
    }
    ProcessedExplained(progresses);
  }

  lemma EvaluateRates(nats: bool, window: Window, progresses: seq<Progress>, previous: Option<real>)
    ensures ExplainsRates(nats, window, Seconds(window), previous, Evaluate(nats, window, progresses, previous))
  {
    var decision := Evaluate(nats, window, progresses, previous);
    if decision.processed.Some? {
      Quotient(decision.processed.value as real, Seconds(window));
    }
    if window.pendingStart.Some? && window.pendingEnd.Some? {
      GrowthIs(window);
    }
  }

  lemma EvaluateExplains(nats: bool, window: Window, progresses: seq<Progress>, previous: Option<real>)
    ensures Explains(nats, window, progresses, previous, Evaluate(nats, window, progresses, previous))
  {
    EvaluateCounts(nats, window, progresses, previous);
    EvaluateRates(nats, window, progresses, previous);
    assert LastsFor(window, Seconds(window));
  }

  lemma Quotient(x: real, seconds: real)
    requires seconds > 0.0
    ensures x / seconds * seconds == x
  {
  }

  class Backend {
    var progress: map<(nat, nat), Progress>
    var decided: map<nat, Decision>

    constructor ()
      ensures progress == map[] && decided == map[]
    {
      progress, decided := map[], map[];
    }

    /** The other workers put objects; each name is put once. */
    method Others(me: nat)
      modifies this
      ensures forall k :: k in old(progress) ==> k in progress && progress[k] == old(progress)[k]
      ensures forall r :: r in old(decided) ==> r in decided && decided[r] == old(decided)[r]
      ensures forall k :: k in progress && k !in old(progress) ==> k.1 != me
      ensures me == 0 ==> decided == old(decided)
    {
      var more: map<(nat, nat), Progress> := *;
      if more.Keys !! progress.Keys && forall k :: k in more ==> k.1 != me {
        progress := progress + more;
      }
      if me != 0 {
        var r: nat, d: Decision := *, *;
        if r !in decided {
          decided := decided[r := d];
        }
      }
    }
  }

  /** How long a worker waits: the number of polls before it times out. */
  type Patience = nat

  /** The goodput that the next rung is compared with. */
  function LastKnown(rounded: real -> real, log: seq<Decision>): Option<real>
    decreases |log|
  {
    if log == [] then None
    else
      var last := log[|log| - 1];
      if last.goodput.Some? then Some(rounded(last.goodput.value)) else LastKnown(rounded, log[..|log| - 1])
  }

  /** A decision of some window and progresses, compared with what came before it. */
  ghost predicate EvaluatedAfter(nats: bool, previous: Option<real>, decision: Decision) {
    exists window, progresses :: decision == Evaluate(nats, window, progresses, previous)
  }

  ghost predicate Chained(nats: bool, rounded: real -> real, log: seq<Decision>) {
    forall k :: 0 <= k < |log| ==> EvaluatedAfter(nats, LastKnown(rounded, log[..k]), log[k])
  }

  class SaturationCoordinator {
    const nats: bool
    const index: nat
    const count: nat
    const backend: Backend?
    /** round(_, 6) */
    const rounded: real -> real

    var previousGoodput: Option<real>
    var log: seq<Decision>

    ghost predicate Valid()
      reads this
    {
      && index < count && (backend == null <==> count <= 1)
      && previousGoodput == LastKnown(rounded, log) && Chained(nats, rounded, log)
    }

    constructor (nats: bool, index: nat, count: nat, backend: Backend?, rounded: real -> real)
      requires index < count && (backend == null <==> count <= 1)
      ensures Valid() && log == []
      ensures this.nats == nats && this.index == index && this.count == count && this.backend == backend
          && this.rounded == rounded
    {
      this.nats, this.index, this.count, this.backend, this.rounded := nats, index, count, backend, rounded;
      previousGoodput, log := None, [];
    }

    method WaitForProgress(rung: nat, worker: nat, patience: Patience) returns (found: Option<Progress>)
      requires backend != null
      modifies backend
      ensures Grows(old(backend.progress), backend.progress, index)
      ensures index == 0 ==> backend.decided == old(backend.decided)
      ensures found.Some? ==> (rung, worker) in backend.progress && found.value == backend.progress[(rung, worker)]
    {
      for polls := 0 to patience
        invariant Grows(old(backend.progress), backend.progress, index)
        invariant index == 0 ==> backend.decided == old(backend.decided)
      {
        if (rung, worker) in backend.progress {
          return Some(backend.progress[(rung, worker)]);
        }
        backend.Others(index);
      }
      return None;
    }

    method WaitForDecision(rung: nat, patience: Patience) returns (found: Option<Decision>)
      requires backend != null
      modifies backend
      ensures Grows(old(backend.progress), backend.progress, index)
      ensures forall r :: r in old(backend.decided) ==>
          r in backend.decided && backend.decided[r] == old(backend.decided)[r]
      ensures found.Some? ==> rung in backend.decided && found.value == backend.decided[rung]
    {
      for polls := 0 to patience
        invariant Grows(old(backend.progress), backend.progress, index)
        invariant forall r :: r in old(backend.decided) ==>
            r in backend.decided && backend.decided[r] == old(backend.decided)[r]
      {
        if rung in backend.decided {
          return Some(backend.decided[rung]);
        }
        backend.Others(index);
      }
      return None;
    }

    /** Worker 0 waits for every worker's progress, in worker order. */
    method Collect(rung: nat, patience: Patience) returns (progresses: Option<seq<Progress>>)
      requires backend != null
      modifies backend
      ensures Grows(old(backend.progress), backend.progress, index)
      ensures index == 0 ==> backend.decided == old(backend.decided)
      ensures progresses.Some? ==> AreProgresses(backend.progress, rung, count, progresses.value)
    {
      var seen: seq<Progress> := [];
      for w := 0 to count
        invariant Grows(old(backend.progress), backend.progress, index)
        invariant index == 0 ==> backend.decided == old(backend.decided)
        invariant AreProgresses(backend.progress, rung, w, seen)
      {
        var found := WaitForProgress(rung, w, patience);
        if found.None? {
          return None;
        }
        seen := seen + [found.value];
      }
      return Some(seen);
    }

    /** finish_rung. A worker other than 0 returns the posted decision; worker 0 decides on exactly
        what all workers posted, and posts it; None is a timeout. */
    method FinishRung(window: Window, patience: Patience) returns (decision: Option<Decision>)
      requires Valid()
      modifies this`previousGoodput, this`log, backend
      ensures Valid()
      ensures backend != null ==>
        && (window.rung, index) in backend.progress
        && IsProgressOf(backend.progress[(window.rung, index)], index, window)
      ensures backend == null ==>
        && decision.Some?
        && exists own :: IsProgressOf(own, index, window)
                         && Explains(nats, window, [own], old(previousGoodput), decision.value)
      ensures backend != null && decision.Some? ==>
          window.rung in backend.decided && decision.value == backend.decided[window.rung]
      ensures backend != null && index == 0 && decision.Some? ==> exists progresses ::
          && AreProgresses(backend.progress, window.rung, count, progresses)
          && Explains(nats, window, progresses, old(previousGoodput), decision.value)
      ensures log == if decision.Some? && index == 0 then old(log) + [decision.value] else old(log)
    {
      var own := OwnProgress(index, window);
      assert IsProgressOf(own, index, window);
      var progresses := [own];
      if backend != null {
        backend.progress := backend.progress[(window.rung, index) := own];
        if index != 0 {
          decision := WaitForDecision(window.rung, patience);
          return;
        }
        var collected := Collect(window.rung, patience);
        if collected.None? {
          return None;
        }
        progresses := collected.value;
      }
      var evaluated := Evaluate(nats, window, progresses, previousGoodput);
      AppendDecision(nats, rounded, log, window, progresses);
      EvaluateExplains(nats, window, progresses, previousGoodput);
      if evaluated.goodput.Some? {
        previousGoodput := Some(rounded(evaluated.goodput.value));
      }
      log := log + [evaluated];
      if backend != null {
        backend.decided := backend.decided[window.rung := evaluated];
      }
      return Some(evaluated);
    }
  }

  /** Names are only added, and none of this worker's own by others. */
  ghost predicate Grows(before: map<(nat, nat), Progress>, after: map<(nat, nat), Progress>, me: nat) {
    && (forall k :: k in before ==> k in after && after[k] == before[k])
    && (forall k :: k in after && k !in before ==> k.1 != me)
  }

  ghost predicate AreProgresses(progress: map<(nat, nat), Progress>, rung: nat, count: nat, progresses: seq<Progress>) {
    |progresses| == count && forall w :: 0 <= w < count ==>
        (rung, w) in progress && progresses[w] == progress[(rung, w)]
  }

  lemma AppendDecision(nats: bool, rounded: real -> real, log: seq<Decision>, window: Window, progresses: seq<Progress>)
    requires Chained(nats, rounded, log)
    ensures var d := Evaluate(nats, window, progresses, LastKnown(rounded, log));
            && Chained(nats, rounded, log + [d])
            && LastKnown(rounded, log + [d])
                == if d.goodput.Some? then Some(rounded(d.goodput.value)) else LastKnown(rounded, log)
  {
    var d := Evaluate(nats, window, progresses, LastKnown(rounded, log));
    var more := log + [d];
    assert more[..|log|] == log;
    assert EvaluatedAfter(nats, LastKnown(rounded, log), d);
    forall k | 0 <= k < |more| ensures EvaluatedAfter(nats, LastKnown(rounded, more[..k]), more[k]) {
      if k < |log| {
        assert more[..k] == log[..k];
      }
    }
  }

  /** Every decision in the log means what Explains says, for the window and the progress it was made
      on and the goodput last known before it. */
  lemma LogIsExplained(nats: bool, rounded: real -> real, log: seq<Decision>, k: nat)
    returns (window: Window, progresses: seq<Progress>)
    requires Chained(nats, rounded, log) && k < |log|
    ensures Explains(nats, window, progresses, LastKnown(rounded, log[..k]), log[k])
  {
    var previous := LastKnown(rounded, log[..k]);
    assert EvaluatedAfter(nats, previous, log[k]);
    var w, ps :| log[k] == Evaluate(nats, w, ps, previous);
    EvaluateExplains(nats, w, ps, previous);
    window, progresses := w, ps;
  }

  /** A processed count is never negative, however readings are missing or observers change. */
  lemma {:induction false} ProcessedNeverNegative(progresses: seq<Progress>)
    ensures Processed(progresses).Some? ==> Processed(progresses).value >= 0
    decreases |progresses|
  {
    if progresses != [] {
      ProcessedNeverNegative(progresses[1..]);
    }
  }

  /** Over the whole log of worker 0: without a NATS backlog a rung is called saturated exactly when
      its goodput is no higher than that of the rung before. */
  lemma PlateauIff(rounded: real -> real, log: seq<Decision>, k: nat)
    requires Chained(false, rounded, log) && k < |log|
    ensures log[k].goodput.Some?
    ensures log[k].reason.Some? <==>
      k > 0 && log[k - 1].goodput.Some? && log[k].goodput.value <= rounded(log[k - 1].goodput.value)
  {
    assert EvaluatedAfter(false, LastKnown(rounded, log[..k]), log[k]);
    if k > 0 {
      assert EvaluatedAfter(false, LastKnown(rounded, log[..k - 1]), log[k - 1]);
      assert log[..k][k - 1] == log[k - 1];
    }
  }

  /** The last rung at or before n with a known goodput, or -1. */
  function LastKnownRung(log: seq<Decision>, n: nat): (i: int)
    requires n <= |log|
    ensures -1 <= i < n
    ensures i >= 0 ==> log[i].goodput.Some?
    ensures forall j :: i < j < n ==> log[j].goodput.None?
  {
    if n == 0 then -1 else if log[n - 1].goodput.Some? then n - 1 else LastKnownRung(log, n - 1)
  }

  lemma {:induction false} LastKnownIs(rounded: real -> real, log: seq<Decision>, n: nat)
    requires n <= |log|
    ensures var i := LastKnownRung(log, n);
            LastKnown(rounded, log[..n]) == if i < 0 then None else Some(rounded(log[i].goodput.value))
  {
    if n > 0 {
      LastKnownIs(rounded, log, n - 1);
      assert log[..n][..n - 1] == log[..n - 1];
    }
  }

  /** With NATS a rung without a measured goodput is skipped: a rung stops increasing exactly when it
      is no higher than the last known one, unless the backlog grows rapidly, which is reported
      first. */
  lemma PlateauAgainstLastKnown(nats: bool, rounded: real -> real, log: seq<Decision>, k: nat)
    requires Chained(nats, rounded, log) && k < |log| && log[k].reason != Some(PendingIncreasingRapidly)
    ensures var i := LastKnownRung(log, k);
            log[k].reason == Some(GoodputStoppedIncreasing) <==>
            i >= 0 && log[k].goodput.Some? && log[k].goodput.value <= rounded(log[i].goodput.value)
  {
    assert EvaluatedAfter(nats, LastKnown(rounded, log[..k]), log[k]);
    LastKnownIs(rounded, log, k);
  }
}
