/**
 The stored record of one benchmark run and the changes that controllers and the run's Job make to
 it (src/benchmarkservice/control.py and job.py). Timestamps, the configuration and the fields that
 only identify a pod or process are left out.
 */
module RunRecord {
  import opened Options
  import opened RevisionedStore

  datatype State = Submitted | Starting | Running | Stopping | Completed | Failed | Stopped | Interrupted

  predicate IsActive(state: State) {
    state.Submitted? || state.Starting? || state.Running? || state.Stopping?
  }

  datatype Status = Status(
    state: State,
    stopRequested: bool,
    leaseUntil: Option<real>,
    exitCode: Option<int>,
    message: Option<string>,
    jobName: Option<string>,
    workerCount: Option<nat>)

  datatype Record = Record(status: Status, summary: Option<string>, artifacts: map<string, string>)

  function Created(leaseUntil: real): Record {
    Record(Status(Submitted, false, Some(leaseUntil), None, None, None, None), None, map[])
  }

  /** Every change function handed to mutate. */
  datatype Change =
    | SetJob(name: string, workers: nat)
    | SubmitFailed(reason: string)
    | Reconcile(terminal: State, reason: string)
    | RequestStop
    | MarkStopped
    | MarkStarting(workers: nat, until: real)
    | Heartbeat(until: real)
    | MarkRunning
    | Finish(outcome: State, code: int, note: Option<string>, summary: Option<string>, artifacts: map<string, string>)
    | JobFailed(reason: string)

  function SetState(record: Record, state: State): Record {
    record.(status := record.status.(state := state))
  }

  function ApplyChange(record: Record, change: Change): Record {
    match change
    case SetJob(name, workers) => record.(status := record.status.(jobName := Some(name), workerCount := Some(workers)))
    case SubmitFailed(reason) => record.(status := record.status.(state := Failed, message := Some(reason)))
    case Reconcile(terminal, reason) => record.(status := record.status.(state := terminal, message := Some(reason)))
    case RequestStop => record.(status := record.status.(state := Stopping, stopRequested := true))
    case MarkStopped => SetState(record, Stopped)
    case MarkStarting(workers, until) =>
      record.(status := record.status.(state := Starting, workerCount := Some(workers), leaseUntil := Some(until)))
    case Heartbeat(until) => record.(status := record.status.(leaseUntil := Some(until)))
    case MarkRunning => SetState(record, Running)
    case Finish(outcome, code, note, summary, artifacts) =>
      Record(
        record.status.(
          state := if record.status.stopRequested then Stopped else outcome,
          exitCode := Some(code),
          leaseUntil := None,
          message := if note.Some? then note else record.status.message),
        summary,
        artifacts)
    case JobFailed(reason) => record.(status := record.status.(state := Failed, message := Some(reason)))
  }

  /** What the callers pass: reconciliation and a finished Job only ever set a terminal state, and
      only a finished Job sets the state completed. */
  predicate WellFormed(change: Change) {
    match change
    case Reconcile(terminal, _) => terminal.Stopped? || terminal.Interrupted? || terminal.Failed?
    case Finish(outcome, _, _, _, _) => outcome.Stopped? || outcome.Failed? || outcome.Completed?
    case _ => true
  }

  const MAX_ATTEMPTS := 12

  datatype MutateResult = Mutated(record: Record) | NotFound | Contended | StoreUnavailable

  /** mutate: read, change, compare-and-set, up to 12 times. What lands is the change of the record
      stored immediately before it, so no update by anybody else is lost. */
  method Mutate(key: Key<Record>, me: nat, change: Change, network: nat -> seq<Delivery>) returns (result: MutateResult)
    modifies key
    ensures old(key.history) <= key.history
    ensures result.Mutated? ==>
              var n := |key.history| - 1;
              && |old(key.history)| <= n && 0 < n
              && key.history[n] == Write(me, n, result.record)
              && result.record == ApplyChange(key.history[n - 1].value, change)
    ensures forall i :: |old(key.history)| <= i < |key.history| && key.history[i].writer == me ==>
              i > 0 && key.history[i].value == ApplyChange(key.history[i - 1].value, change)
    ensures result.NotFound? ==> key.history == []
    ensures result.Contended? ==> |key.history| >= |old(key.history)| + MAX_ATTEMPTS
    ensures old(key.history) != [] && OnlyWrote(old(key.history), key.history, me)
              && (forall k: nat :: OneReply(network(k))) ==>
              result.Mutated?
    ensures !result.Mutated? && (forall k: nat :: ReplyLost !in network(k)) ==>
        WroteNothing(old(key.history), key.history, me)
  {
    for attempt := 0 to MAX_ATTEMPTS
      invariant old(key.history) <= key.history
      invariant |key.history| >= |old(key.history)| + attempt
      invariant (forall k: nat :: OneReply(network(k))) ==>
          attempt == 0 || !OnlyWrote(old(key.history), key.history, me)
      invariant forall i :: |old(key.history)| <= i < |key.history| && key.history[i].writer == me ==>
                  i > 0 && key.history[i].value == ApplyChange(key.history[i - 1].value, change)
      invariant (forall k: nat :: ReplyLost !in network(k)) ==> WroteNothing(old(key.history), key.history, me)
    {
      key.OtherClients(me);
      var entry, revision := key.Get();
      if entry.None? {
        return NotFound;
      }
      ghost var seen := key.history;
      var updated := ApplyChange(entry.value, change);
      var reply := key.UpdateWithRecovery(Write(me, revision, updated), network(attempt));
      assert key.history[revision - 1] == seen[revision - 1];
      if reply.Updated? {
        return Mutated(updated);
      }
      if reply.GaveUp? {
        return StoreUnavailable;
      }
    }
    return Contended;
  }

  // ----- The fold of a list of changes -----

  function Replay(record: Record, changes: seq<Change>): Record
    decreases |changes|
  {
    if changes == [] then record
    else ApplyChange(Replay(record, changes[..|changes| - 1]), changes[|changes| - 1])
  }

  predicate SetsState(change: Change) {
    !change.SetJob? && !change.Heartbeat?
  }

  /** The position of the last change with a property, or -1. */
  function LastWith(changes: seq<Change>, property: Change -> bool): (i: int)
    ensures -1 <= i < |changes|
    ensures i >= 0 ==> property(changes[i])
    ensures forall j :: i < j < |changes| ==> !property(changes[j])
  {
    if changes == [] then -1
    else if property(changes[|changes| - 1]) then |changes| - 1
    else LastWith(changes[..|changes| - 1], property)
  }

  lemma {:induction false} LastWithPrefix(changes: seq<Change>, property: Change -> bool)
    requires changes != []
    ensures LastWith(changes, property)
            == if property(changes[|changes| - 1]) then |changes| - 1 else LastWith(changes[..|changes| - 1], property)
  {
  }

  lemma StopStep(record: Record, change: Change)
    ensures ApplyChange(record, change).status.stopRequested <==> record.status.stopRequested || change == RequestStop
  {
  }

  /** A stop request is never cleared, and nothing else sets it. */
  lemma {:induction false} StopRequestedIff(record: Record, changes: seq<Change>)
    ensures Replay(record, changes).status.stopRequested <==> record.status.stopRequested || RequestStop in changes
    decreases |changes|
  {
    if changes != [] {
      var before, change := changes[..|changes| - 1], changes[|changes| - 1];
      StopRequestedIff(record, before);
      assert changes == before + [change];
      StopStep(Replay(record, before), change);
    }
  }

  /** The state is completed exactly when the last change that sets a state is a finish with that
      outcome and no stop was requested at all; so completed never co-exists with a stop request. */
  lemma {:induction false} CompletedIff(record: Record, changes: seq<Change>)
    requires !record.status.state.Completed?
    requires forall change :: change in changes ==> WellFormed(change)
    ensures var last := LastWith(changes, SetsState);
            Replay(record, changes).status.state.Completed? <==>
            && last >= 0 && changes[last].Finish? && changes[last].outcome.Completed?
            && !record.status.stopRequested && RequestStop !in changes
    decreases |changes|
  {
    if changes != [] {
      var before := changes[..|changes| - 1];
      var change := changes[|changes| - 1];
      assert changes == before + [change];
      assert WellFormed(change);
      assert RequestStop in changes <==> RequestStop in before || change == RequestStop;
      CompletedIff(record, before);
      StopRequestedIff(record, before);
      LastWithPrefix(changes, SetsState);
    }
  }

  /** The position of the last finish, or -1. */
  function LastFinish(changes: seq<Change>): (i: int)
    ensures -1 <= i < |changes| && (i >= 0 ==> changes[i].Finish?)
    ensures forall j :: i < j < |changes| ==> !changes[j].Finish?
  {
    LastWith(changes, (c: Change) => c.Finish?)
  }

  /** Summary and artifacts are those of the last finish that landed, whatever else lands. */
  lemma {:induction false} SummaryIsLastFinish(record: Record, changes: seq<Change>)
    ensures var last := LastFinish(changes);
            var result := Replay(record, changes);
            if last >= 0 then result.summary == changes[last].summary && result.artifacts == changes[last].artifacts
            else result.summary == record.summary && result.artifacts == record.artifacts
    decreases |changes|
  {
    if changes != [] {
      SummaryIsLastFinish(record, changes[..|changes| - 1]);
      LastWithPrefix(changes, (c: Change) => c.Finish?);
    }
  }

  predicate TouchesLease(change: Change) {
    change.MarkStarting? || change.Heartbeat? || change.Finish?
  }

  /** A finish removes lease_until, but a heartbeat that lands after it puts one back. */
  lemma {:induction false} FinalLeaseIff(record: Record, changes: seq<Change>)
    ensures var last := LastWith(changes, TouchesLease);
            Replay(record, changes).status.leaseUntil
            == if last < 0 then record.status.leaseUntil
               else if changes[last].Finish? then None
               else Some(changes[last].until)
    decreases |changes|
  {
    if changes != [] {
      FinalLeaseIff(record, changes[..|changes| - 1]);
      LastWithPrefix(changes, TouchesLease);
    }
  }

  predicate Activates(change: Change) {
    change.RequestStop? || change.MarkStarting? || change.MarkRunning?
  }

  /** The run is active exactly when the last change that sets a state is a stop request, a start or
      a running mark, whatever landed before it: a terminal state is left as soon as one of these
      lands after it. */
  lemma {:induction false} ActiveIff(record: Record, changes: seq<Change>)
    requires forall change :: change in changes ==> WellFormed(change)
    ensures var last := LastWith(changes, SetsState);
            IsActive(Replay(record, changes).status.state) <==>
              if last < 0 then IsActive(record.status.state) else Activates(changes[last])
    decreases |changes|
  {
    if changes != [] {
      var before, change := changes[..|changes| - 1], changes[|changes| - 1];
      assert WellFormed(change);
      ActiveIff(record, before);
      LastWithPrefix(changes, SetsState);
    }
  }

  /** What a change that sets a state sets it to; a finish looks at whether a stop was requested. */
  function StateSetBy(change: Change, stopRequested: bool): State
    requires SetsState(change)
  {
    match change
    case SubmitFailed(_) => Failed
    case Reconcile(terminal, _) => terminal
    case RequestStop => Stopping
    case MarkStopped => Stopped
    case MarkStarting(_, _) => Starting
    case MarkRunning => Running
    case Finish(outcome, _, _, _, _) => if stopRequested then Stopped else outcome
    case JobFailed(_) => Failed
  }

  /** The state is exactly the one that the last change to set a state names, a finish being stopped
      if a stop had been requested anywhere before it. */
  lemma {:induction false} StateIsLastSet(record: Record, changes: seq<Change>)
    ensures var last := LastWith(changes, SetsState);
            Replay(record, changes).status.state
            == if last < 0 then record.status.state
               else StateSetBy(changes[last], record.status.stopRequested || RequestStop in changes[..last])
    decreases |changes|
  {
    if changes != [] {
      var before, change := changes[..|changes| - 1], changes[|changes| - 1];
      StateIsLastSet(record, before);
      StopRequestedIff(record, before);
      LastWithPrefix(changes, SetsState);
      var last := LastWith(changes, SetsState);
      assert 0 <= last < |before| ==> before[..last] == changes[..last];
    }
  }

  predicate GivesMessage(change: Change) {
    change.SubmitFailed? || change.Reconcile? || change.JobFailed? || (change.Finish? && change.note.Some?)
  }

  predicate NamesJob(change: Change) {
    change.SetJob?
  }

  predicate CountsWorkers(change: Change) {
    change.SetJob? || change.MarkStarting?
  }

  /** The exit code is that of the last finish. */
  lemma {:induction false} ExitCodeIsLastFinish(record: Record, changes: seq<Change>)
    ensures var last := LastFinish(changes);
            Replay(record, changes).status.exitCode
            == if last < 0 then record.status.exitCode else Some(changes[last].code)
    decreases |changes|
  {
    if changes != [] {
      ExitCodeIsLastFinish(record, changes[..|changes| - 1]);
      LastWithPrefix(changes, (c: Change) => c.Finish?);
    }
  }

  /** The message is the last one given: a reason, or the note of a finish. */
  lemma {:induction false} MessageIsLastGiven(record: Record, changes: seq<Change>)
    ensures var last := LastWith(changes, GivesMessage);
            Replay(record, changes).status.message
            == if last < 0 then record.status.message
               else if changes[last].Finish? then changes[last].note
               else Some(changes[last].reason)
    decreases |changes|
  {
    if changes != [] {
      MessageIsLastGiven(record, changes[..|changes| - 1]);
      LastWithPrefix(changes, GivesMessage);
    }
  }

  /** The Job's name and the number of workers are the last ones given. */
  lemma {:induction false} JobIsLastNamed(record: Record, changes: seq<Change>)
    ensures var last := LastWith(changes, NamesJob);
            Replay(record, changes).status.jobName
            == if last < 0 then record.status.jobName else Some(changes[last].name)
    ensures var last := LastWith(changes, CountsWorkers);
            Replay(record, changes).status.workerCount
            == if last < 0 then record.status.workerCount else Some(changes[last].workers)
    decreases |changes|
  {
    if changes != [] {
      JobIsLastNamed(record, changes[..|changes| - 1]);
      LastWithPrefix(changes, NamesJob);
      LastWithPrefix(changes, CountsWorkers);
    }
  }

  /** One step of that. */
  lemma TerminalStateLeftIff(record: Record, change: Change)
    requires !IsActive(record.status.state) && WellFormed(change)
    ensures IsActive(ApplyChange(record, change).status.state)
            <==> Activates(change)
  {
  }

  /** Replaying a change whose success was hidden does no further harm. */
  lemma ChangesAreIdempotent(record: Record, change: Change)
    ensures ApplyChange(ApplyChange(record, change), change) == ApplyChange(record, change)
  {
  }
}
