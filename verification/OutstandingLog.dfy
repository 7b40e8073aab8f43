/**
 The outstanding-order log of one load worker (ArtifactRecorder in src/benchmarkservice/runtime.py).
 */
module OutstandingLog {
  datatype Event = Accepted | Terminal(outcome: string)

  datatype Record = Record(timestamp: real, event: Event, transactionId: string, outstanding: int)

  function Step(count: int, event: Event): int {
    if event.Accepted? then count + 1 else if count - 1 >= 0 then count - 1 else 0
  }

  /** The running count after a log: up on an acceptance, down on a terminal outcome, never below 0. */
  function CountAfter(log: seq<Record>): (count: int)
    ensures count >= 0
    decreases |log|
  {
    if log == [] then 0 else Step(CountAfter(log[..|log| - 1]), log[|log| - 1].event)
  }

  lemma CountSnoc(log: seq<Record>, record: Record)
    ensures CountAfter(log + [record]) == Step(CountAfter(log), record.event)
  {
    assert (log + [record])[..|log|] == log;
  }

  /** One more for an acceptance, one less for an outcome, and never below zero. */
  lemma CountMoves(log: seq<Record>, record: Record)
    ensures record.event.Accepted? ==> CountAfter(log + [record]) == CountAfter(log) + 1
    ensures record.event.Terminal? && CountAfter(log) > 0 ==> CountAfter(log + [record]) == CountAfter(log) - 1
    ensures record.event.Terminal? && CountAfter(log) == 0 ==> CountAfter(log + [record]) == 0
    ensures CountAfter([]) == 0
  {
    CountSnoc(log, record);
  }

  /** Every record carries the running count after itself. */
  ghost predicate WellCounted(log: seq<Record>) {
    forall i :: 0 <= i < |log| ==> log[i].outstanding == CountAfter(log[..i + 1])
  }

  class ArtifactRecorder {
    var outstandingCount: int
    var completedCount: nat
    var log: seq<Record>

    ghost predicate Valid()
      reads this
    {
      outstandingCount == CountAfter(log) && WellCounted(log)
    }

    constructor ()
      ensures Valid() && log == [] && completedCount == 0
    {
      outstandingCount, completedCount, log := 0, 0, [];
    }

    method Accept(now: real, transactionId: string)
      requires Valid()
      modifies this
      ensures Valid() && completedCount == old(completedCount)
      ensures log == old(log) + [Record(now, Accepted, transactionId, old(outstandingCount) + 1)]
    {
      outstandingCount := outstandingCount + 1;
      Append(Record(now, Accepted, transactionId, outstandingCount));
    }

    method Finish(now: real, transactionId: string, outcome: string)
      requires Valid()
      modifies this
      ensures Valid() && completedCount == old(completedCount)
      ensures |log| == |old(log)| + 1 && log[..|old(log)|] == old(log)
      ensures var last := log[|old(log)|];
              && last.timestamp == now && last.event == Terminal(outcome) && last.transactionId == transactionId
              && last.outstanding == if old(outstandingCount) >= 1 then old(outstandingCount) - 1 else 0
    {
      outstandingCount := if outstandingCount - 1 >= 0 then outstandingCount - 1 else 0;
      Append(Record(now, Terminal(outcome), transactionId, outstandingCount));
    }

    method Append(record: Record)
      requires WellCounted(log) && record.outstanding == outstandingCount == Step(CountAfter(log), record.event)
      modifies this`log
      ensures Valid() && log == old(log) + [record]
    {
      CountSnoc(log, record);
      ghost var before := log;
      log := log + [record];
      forall i | 0 <= i < |log|
        ensures log[i].outstanding == CountAfter(log[..i + 1])
      {
        if i < |before| {
          assert log[..i + 1] == before[..i + 1];
        } else {
          assert log[..i + 1] == log;
        }
      }
    }

    /** A checkout that reached the outcome COMPLETED. */
    method Complete()
      requires Valid()
      modifies this`completedCount
      ensures Valid() && completedCount == old(completedCount) + 1
    {
      completedCount := completedCount + 1;
    }
  }

  // ----- Logs whose terminals follow their accepts -----

  /** Every terminal outcome follows the acceptance of the same transaction, and a transaction is
      accepted once and ends once. */
  ghost predicate Paired(log: seq<Record>) {
    && (forall i :: 0 <= i < |log| && log[i].event.Terminal? ==>
          exists j :: 0 <= j < i && log[j].event.Accepted? && log[j].transactionId == log[i].transactionId)
    && (forall i, j :: 0 <= i < j < |log| && log[i].event.Accepted? == log[j].event.Accepted? ==>
          log[i].transactionId != log[j].transactionId)
  }

  function Ids(log: seq<Record>, accepted: bool): set<string> {
    set i | 0 <= i < |log| && log[i].event.Accepted? == accepted :: log[i].transactionId
  }

  lemma PairedPrefix(log: seq<Record>, n: nat)
    requires Paired(log) && n <= |log|
    ensures Paired(log[..n])
  {
  }

  lemma IdsSnoc(log: seq<Record>, accepted: bool)
    requires log != []
    ensures var last := log[|log| - 1]; var before := Ids(log[..|log| - 1], accepted);
            Ids(log, accepted) == if last.event.Accepted? == accepted then before + {last.transactionId} else before
  {
    var before := log[..|log| - 1];
    assert forall k :: 0 <= k < |before| ==> before[k] == log[k];
    forall id | id in Ids(log, accepted) && id !in Ids(before, accepted)
      ensures id == log[|log| - 1].transactionId && log[|log| - 1].event.Accepted? == accepted
    {
      var i :| 0 <= i < |log| && log[i].event.Accepted? == accepted && log[i].transactionId == id;
    }
    forall id | id in Ids(before, accepted)
      ensures id in Ids(log, accepted)
    {
      var i :| 0 <= i < |before| && before[i].event.Accepted? == accepted && before[i].transactionId == id;
      assert log[i] == before[i];
    }
  }

  /** In a paired log the count is the number of transactions accepted and not ended. */
  lemma {:induction false} CountIsOpenTransactions(log: seq<Record>)
    requires Paired(log)
    ensures Ids(log, false) <= Ids(log, true)
    ensures CountAfter(log) == |Ids(log, true)| - |Ids(log, false)|
    decreases |log|
  {
    if log != [] {
      var n := |log| - 1;
      PairedPrefix(log, n);
      CountIsOpenTransactions(log[..n]);
      IdsSnoc(log, true);
      IdsSnoc(log, false);
      NewTransaction(log);
    }
  }

  /** The last record of a paired log opens a transaction not opened before, or ends one that is
      open. */
  lemma NewTransaction(log: seq<Record>)
    requires Paired(log) && log != []
    ensures var before := log[..|log| - 1]; var last := log[|log| - 1];
            && last.transactionId !in Ids(before, last.event.Accepted?)
            && (last.event.Terminal? ==> last.transactionId in Ids(before, true))
            && (last.event.Terminal? ==>
                |Ids(before, false)| < |Ids(before, true)| || !(Ids(before, false) <= Ids(before, true)))
  {
    var n := |log| - 1;
    var before, last := log[..n], log[n];
    if last.event.Terminal? {
      var j :| 0 <= j < n && log[j].event.Accepted? && log[j].transactionId == last.transactionId;
      assert before[j] == log[j];
      if Ids(before, false) <= Ids(before, true) {
        SubsetSmaller(Ids(before, false) + {last.transactionId}, Ids(before, true));
      }
    }
  }

  lemma {:induction false} SubsetSmaller(a: set<string>, b: set<string>)
    requires a <= b
    ensures |a| <= |b|
    decreases a
  {
    if a != {} {
      var x :| x in a;
      SubsetSmaller(a - {x}, b - {x});
    }
  }

  /** The clamp never fires on a paired log: before a terminal outcome the count is positive. */
  lemma PairedNeverClamps(log: seq<Record>, i: nat)
    requires Paired(log) && i < |log| && log[i].event.Terminal?
    ensures CountAfter(log[..i]) >= 1
  {
    PairedPrefix(log, i);
    CountIsOpenTransactions(log[..i]);
    PairedPrefix(log, i + 1);
    NewTransaction(log[..i + 1]);
    assert log[..i + 1][..i] == log[..i];
  }
}
