/**
 Merging the outstanding-order logs of all workers into one (merge_worker_outputs in
 src/benchmarkservice/parallel.py): a stable k-way merge by timestamp, then a recount.
 */
module OutstandingMerge {
  import opened OutstandingLog
  import opened Sums

  type Logs = seq<seq<Record>>

  /** The records of worker `w` in a merged log, in order; `origin` says where each came from. */
  function Project(merged: seq<Record>, origin: seq<nat>, w: nat): seq<Record>
    requires |merged| == |origin|
    decreases |merged|
  {
    if merged == [] then []
    else
      var n := |merged| - 1;
      Project(merged[..n], origin[..n], w) + if origin[n] == w then [merged[n]] else []
  }

  /** `merged` is an order-preserving interleaving of all the logs. */
  ghost predicate Interleaves(logs: Logs, merged: seq<Record>, origin: seq<nat>) {
    && |merged| == |origin|
    && (forall i :: 0 <= i < |origin| ==> origin[i] < |logs|)
    && forall w: nat :: w < |logs| ==> Project(merged, origin, w) == logs[w]
  }

  ghost predicate Sorted(log: seq<Record>) {
    forall i, j :: 0 <= i < j < |log| ==> log[i].timestamp <= log[j].timestamp
  }

  ghost predicate Positions(logs: Logs, at: seq<nat>) {
    |at| == |logs| && forall w :: 0 <= w < |logs| ==> at[w] <= |logs[w]|
  }

  /** `next` is the log whose next record comes first: the least timestamp, the least index among
      equals; -1 when all logs are used up. */
  ghost predicate IsNext(logs: Logs, at: seq<nat>, next: int)
    requires Positions(logs, at)
  {
    && -1 <= next < |logs|
    && (next == -1 ==> forall w :: 0 <= w < |logs| ==> at[w] == |logs[w]|)
    && (next >= 0 ==>
          && at[next] < |logs[next]|
          && (forall w :: 0 <= w < |logs| && at[w] < |logs[w]| ==>
                logs[next][at[next]].timestamp <= logs[w][at[w]].timestamp)
          && (forall w :: 0 <= w < next && at[w] < |logs[w]| ==>
                logs[next][at[next]].timestamp < logs[w][at[w]].timestamp))
  }

  method NextLog(logs: Logs, at: seq<nat>) returns (next: int)
    requires Positions(logs, at)
    ensures IsNext(logs, at, next)
  {
    next := -1;
    for w := 0 to |logs|
      invariant -1 <= next < w
      invariant next == -1 ==> forall v :: 0 <= v < w ==> at[v] == |logs[v]|
      invariant next >= 0 ==>
                  && at[next] < |logs[next]|
                  && (forall v :: 0 <= v < w && at[v] < |logs[v]| ==>
                        logs[next][at[next]].timestamp <= logs[v][at[v]].timestamp)
                  && (forall v :: 0 <= v < next && at[v] < |logs[v]| ==>
                        logs[next][at[next]].timestamp < logs[v][at[v]].timestamp)
    {
      if at[w] < |logs[w]| && (next == -1 || logs[w][at[w]].timestamp < logs[next][at[next]].timestamp) {
        next := w;
      }
    }
  }

  function Remaining(logs: Logs, at: seq<nat>): seq<int>
    requires Positions(logs, at)
  {
    seq(|logs|, w requires 0 <= w < |logs| => |logs[w]| - at[w])
  }

  ghost predicate MergedSoFar(logs: Logs, at: seq<nat>, merged: seq<Record>, origin: seq<nat>) {
    && Positions(logs, at)
    && |merged| == |origin|
    && (forall i :: 0 <= i < |origin| ==> origin[i] < |logs|)
    && forall w: nat {:trigger Project(merged, origin, w)} :: w < |logs| ==>
        Project(merged, origin, w) == logs[w][..at[w]]
  }

  lemma ProjectSnoc(merged: seq<Record>, origin: seq<nat>, record: Record, source: nat, w: nat)
    requires |merged| == |origin|
    ensures Project(merged + [record], origin + [source], w)
            == Project(merged, origin, w) + if source == w then [record] else []
  {
    assert (merged + [record])[..|merged|] == merged && (origin + [source])[..|origin|] == origin;
  }

  lemma TakeNext(logs: Logs, at: seq<nat>, merged: seq<Record>, origin: seq<nat>, next: nat)
    requires MergedSoFar(logs, at, merged, origin) && next < |logs| && at[next] < |logs[next]|
    ensures MergedSoFar(logs, at[next := at[next] + 1], merged + [logs[next][at[next]]], origin + [next])
  {
    var record := logs[next][at[next]];
    forall w: nat | w < |logs|
      ensures Project(merged + [record], origin + [next], w) == logs[w][..at[next := at[next] + 1][w]]
    {
      ProjectSnoc(merged, origin, record, next, w);
    }
  }

  ghost predicate NotAfterHeads(logs: Logs, at: seq<nat>, merged: seq<Record>)
    requires Positions(logs, at)
  {
    forall i, w :: 0 <= i < |merged| && 0 <= w < |logs| && at[w] < |logs[w]| ==>
        merged[i].timestamp <= logs[w][at[w]].timestamp
  }

  ghost predicate AllSorted(logs: Logs) {
    forall w :: 0 <= w < |logs| ==> Sorted(logs[w])
  }

  lemma TakeNextSorted(logs: Logs, at: seq<nat>, merged: seq<Record>, next: nat)
    requires Positions(logs, at) && next < |logs| && IsNext(logs, at, next)
    requires AllSorted(logs) && Sorted(merged) && NotAfterHeads(logs, at, merged)
    ensures Sorted(merged + [logs[next][at[next]]])
    ensures NotAfterHeads(logs, at[next := at[next] + 1], merged + [logs[next][at[next]]])
  {
    var record := logs[next][at[next]];
    var after := at[next := at[next] + 1];
    forall w | 0 <= w < |logs| && after[w] < |logs[w]|
      ensures logs[w][at[w]].timestamp <= logs[w][after[w]].timestamp && record.timestamp <= logs[w][at[w]].timestamp
    {
      assert Sorted(logs[w]);
    }
  }

  lemma TakeNextShrinks(logs: Logs, at: seq<nat>, next: nat)
    requires Positions(logs, at) && next < |logs| && at[next] < |logs[next]|
    ensures 0 <= Sum(Remaining(logs, at[next := at[next] + 1])) < Sum(Remaining(logs, at))
  {
    var before := Remaining(logs, at);
    var after := Remaining(logs, at[next := at[next] + 1]);
    assert after == before[next := before[next] - 1];
    SumUpdate(before, next, before[next] - 1);
    SumPrefix(after, 0);
  }

  /** heapq.merge keyed by timestamp. */
  method MergeLogs(logs: Logs) returns (merged: seq<Record>, ghost origin: seq<nat>)
    ensures Interleaves(logs, merged, origin)
    ensures AllSorted(logs) ==> Sorted(merged)
  {
    var at: seq<nat> := seq(|logs|, _ => 0);
    merged, origin := [], [];
    var next := NextLog(logs, at);
    while next >= 0
      invariant MergedSoFar(logs, at, merged, origin)
      invariant IsNext(logs, at, next)
      invariant AllSorted(logs) ==> Sorted(merged) && NotAfterHeads(logs, at, merged)
      decreases Sum(Remaining(logs, at))
    {
      TakeNext(logs, at, merged, origin, next);
      TakeNextShrinks(logs, at, next);
      if AllSorted(logs) {
        TakeNextSorted(logs, at, merged, next);
      }
      merged := merged + [logs[next][at[next]]];
      origin := origin + [next];
      at := at[next := at[next] + 1];
      next := NextLog(logs, at);
    }
    assert forall w: nat :: w < |logs| ==> logs[w][..at[w]] == logs[w];
  }

  /** rebase_outstanding: the running count of the merged log replaces each worker's own. */
  method Rebase(merged: seq<Record>) returns (rebased: seq<Record>)
    ensures |rebased| == |merged|
    ensures forall i :: 0 <= i < |merged| ==> rebased[i] == merged[i].(outstanding := CountAfter(merged[..i + 1]))
  {
    rebased := [];
    var total := 0;
    for i := 0 to |merged|
      invariant |rebased| == i && total == CountAfter(merged[..i])
      invariant forall k :: 0 <= k < i ==> rebased[k] == merged[k].(outstanding := CountAfter(merged[..k + 1]))
    {
      assert merged[..i + 1] == merged[..i] + [merged[i]];
      CountSnoc(merged[..i], merged[i]);
      if merged[i].event.Accepted? {
        total := total + 1;
      } else {
        total := if total - 1 >= 0 then total - 1 else 0;
      }
      rebased := rebased + [merged[i].(outstanding := total)];
    }
  }

  // ----- The recount is the sum of the workers' own counts -----

  /** The latest own count of worker `w` within the merged records, 0 before its first. */
  function LatestOwn(merged: seq<Record>, origin: seq<nat>, w: nat): int
    requires |merged| == |origin|
  {
    var own := Project(merged, origin, w);
    if own == [] then 0 else own[|own| - 1].outstanding
  }

  function OwnCounts(logs: Logs, merged: seq<Record>, origin: seq<nat>): seq<int>
    requires |merged| == |origin|
  {
    seq(|logs|, w requires 0 <= w < |logs| => CountAfter(Project(merged, origin, w)))
  }

  lemma {:induction false} ProjectPrefix(merged: seq<Record>, origin: seq<nat>, i: nat, w: nat)
    requires |merged| == |origin| && i <= |merged|
    ensures Project(merged[..i], origin[..i], w) <= Project(merged, origin, w)
    decreases |merged|
  {
    if i == |merged| {
      assert merged[..i] == merged && origin[..i] == origin;
    } else {
      var n := |merged| - 1;
      assert merged[..n][..i] == merged[..i] && origin[..n][..i] == origin[..i];
      ProjectPrefix(merged[..n], origin[..n], i, w);
    }
  }

  /** The next merged record is the next one of its own worker's log. */
  lemma NextOwnRecord(logs: Logs, merged: seq<Record>, origin: seq<nat>, i: nat)
    requires Interleaves(logs, merged, origin) && i < |merged|
    ensures var own := Project(merged[..i], origin[..i], origin[i]); var log := logs[origin[i]];
            |own| < |log| && log[|own|] == merged[i] && log[..|own|] == own
  {
    var w := origin[i];
    var own := Project(merged[..i], origin[..i], w);
    assert merged[..i + 1] == merged[..i] + [merged[i]] && origin[..i + 1] == origin[..i] + [w];
    ProjectSnoc(merged[..i], origin[..i], merged[i], w, w);
    ProjectPrefix(merged, origin, i + 1, w);
    assert own + [merged[i]] <= logs[w];
  }

  lemma OwnCountsSnoc(logs: Logs, merged: seq<Record>, origin: seq<nat>, i: nat)
    requires |merged| == |origin| && i < |merged| && origin[i] < |logs|
    ensures var before := OwnCounts(logs, merged[..i], origin[..i]);
            OwnCounts(logs, merged[..i + 1], origin[..i + 1])
                == before[origin[i] := Step(before[origin[i]], merged[i].event)]
  {
    assert merged[..i + 1] == merged[..i] + [merged[i]] && origin[..i + 1] == origin[..i] + [origin[i]];
    var before := OwnCounts(logs, merged[..i], origin[..i]);
    var after := OwnCounts(logs, merged[..i + 1], origin[..i + 1]);
    forall w | 0 <= w < |logs|
      ensures after[w] == if w == origin[i] then Step(before[w], merged[i].event) else before[w]
    {
      var own := Project(merged[..i], origin[..i], w);
      ProjectSnoc(merged[..i], origin[..i], merged[i], origin[i], w);
      CountSnoc(own, merged[i]);
      assert own + [] == own;
    }
    assert after == before[origin[i] := Step(before[origin[i]], merged[i].event)];
  }

  /** One merged record moves the total as it moves the count of its own worker. */
  lemma OneMoreRecord(logs: Logs, merged: seq<Record>, origin: seq<nat>, i: nat)
    requires Interleaves(logs, merged, origin) && i < |merged|
    requires forall w :: 0 <= w < |logs| ==> Paired(logs[w])
    requires CountAfter(merged[..i]) == Sum(OwnCounts(logs, merged[..i], origin[..i]))
    ensures CountAfter(merged[..i + 1]) == Sum(OwnCounts(logs, merged[..i + 1], origin[..i + 1]))
    ensures merged[i].event.Terminal? ==> CountAfter(merged[..i]) >= 1
  {
    var w := origin[i];
    var before := OwnCounts(logs, merged[..i], origin[..i]);
    assert merged[..i + 1] == merged[..i] + [merged[i]];
    CountSnoc(merged[..i], merged[i]);
    OwnCountsSnoc(logs, merged, origin, i);
    SumUpdate(before, w, Step(before[w], merged[i].event));
    if merged[i].event.Terminal? {
      NextOwnRecord(logs, merged, origin, i);
      PairedNeverClamps(logs[w], |Project(merged[..i], origin[..i], w)|);
      SumUpdate(before, w, 0);
      SumPrefix(before[w := 0], 0);
    }
  }

  lemma {:induction false} TotalIsSum(logs: Logs, merged: seq<Record>, origin: seq<nat>, i: nat)
    requires Interleaves(logs, merged, origin) && i <= |merged|
    requires forall w :: 0 <= w < |logs| ==> Paired(logs[w])
    ensures CountAfter(merged[..i]) == Sum(OwnCounts(logs, merged[..i], origin[..i]))
    decreases i
  {
    if i == 0 {
      SumZero(OwnCounts(logs, [], []));
    } else {
      TotalIsSum(logs, merged, origin, i - 1);
      OneMoreRecord(logs, merged, origin, i - 1);
    }
  }

  lemma LatestOwnIsCount(log: seq<Record>, own: seq<Record>)
    requires WellCounted(log) && own <= log
    ensures CountAfter(own) == if own == [] then 0 else own[|own| - 1].outstanding
  {
    if own != [] {
      assert own == log[..|own| - 1 + 1];
    }
  }

  function LatestOwnCounts(logs: Logs, merged: seq<Record>, origin: seq<nat>): seq<int>
    requires |merged| == |origin|
  {
    seq(|logs|, w requires 0 <= w < |logs| => LatestOwn(merged, origin, w))
  }

  /** For worker logs written by a recorder in which every terminal follows its accept, the rebased
      count after each record of any order-preserving interleaving is the sum of every worker's
      latest own count, and the clamp at 0 never fires. */
  lemma RebasedCountIsSumOfOwn(logs: Logs, merged: seq<Record>, origin: seq<nat>, i: nat)
    requires Interleaves(logs, merged, origin) && i < |merged|
    requires forall w :: 0 <= w < |logs| ==> Paired(logs[w]) && WellCounted(logs[w])
    ensures CountAfter(merged[..i + 1]) == Sum(LatestOwnCounts(logs, merged[..i + 1], origin[..i + 1]))
    ensures merged[i].event.Terminal? ==> CountAfter(merged[..i]) >= 1
  {
    TotalIsSum(logs, merged, origin, i);
    OneMoreRecord(logs, merged, origin, i);
    var counts := OwnCounts(logs, merged[..i + 1], origin[..i + 1]);
    var latest := LatestOwnCounts(logs, merged[..i + 1], origin[..i + 1]);
    forall w | 0 <= w < |logs|
      ensures counts[w] == latest[w]
    {
      ProjectPrefix(merged, origin, i + 1, w);
      LatestOwnIsCount(logs[w], Project(merged[..i + 1], origin[..i + 1], w));
    }
    assert counts == latest;
  }

  /** The whole of merge_worker_outputs for the outstanding logs. */
  method MergeOutstanding(logs: Logs) returns (rebased: seq<Record>, ghost merged: seq<Record>, ghost origin: seq<nat>)
    ensures Interleaves(logs, merged, origin) && |rebased| == |merged|
    ensures AllSorted(logs) ==> Sorted(merged)
    ensures (forall w :: 0 <= w < |logs| ==> Paired(logs[w]) && WellCounted(logs[w])) ==>
              forall i :: 0 <= i < |merged| ==>
                rebased[i] == merged[i].(outstanding := Sum(LatestOwnCounts(logs, merged[..i + 1], origin[..i + 1])))
  {
    var records, source := MergeLogs(logs);
    merged, origin := records, source;
    rebased := Rebase(records);
    if forall w :: 0 <= w < |logs| ==> Paired(logs[w]) && WellCounted(logs[w]) {
      forall i | 0 <= i < |merged|
        ensures rebased[i] == merged[i].(outstanding := Sum(LatestOwnCounts(logs, merged[..i + 1], origin[..i + 1])))
      {
        RebasedCountIsSumOfOwn(logs, merged, origin, i);
      }
    }
  }
}
