/**
 Any number of concurrent mutate calls on one run record. Each call is a process of its own with a
 well-formed change. stop and _reconcile read the record first and go on only if it is active; the
 mutate call that follows does not look at the state again. Reads may be stale; a request, once
 sent, may land at any later time or never; a sender may be told of a conflict although its own
 request landed, and will then apply its change again to what it reads next.
 */
module RecordRuns {
  import opened Options
  import opened RevisionedStore
  import opened RunRecord

  /** What is stored, and which change it came from; the first entry is the created record. */
  datatype Entry = Entry(record: Record, change: Option<Change>)

  datatype Phase =
    | NotStarted
    | Reading(change: Change, attempt: nat)
    | Sent(change: Change, attempt: nat, write: Write<Entry>)
    | Returned(change: Change, write: Write<Entry>)
    | Ended

  datatype World = World(history: seq<Write<Entry>>, sent: set<Write<Entry>>, phases: map<nat, Phase>)

  /** `seen` is the revision the caller had read when it decided on its change. */
  datatype Step =
    | BeginMutate(p: nat, change: Change, seen: nat)
    | ReadRecord(p: nat, revision: nat)
    | Acknowledged(p: nat)
    | Conflicted(p: nat)
    | Deliver(write: Write<Entry>)
    | Fail(p: nat)

  function Initial(leaseUntil: real): World {
    World([Write(0, 0, Entry(Created(leaseUntil), None))], {}, map[])
  }

  function PhaseOf(world: World, p: nat): Phase {
    if p in world.phases then world.phases[p] else NotStarted
  }

  function Set(world: World, p: nat, phase: Phase): World {
    world.(phases := world.phases[p := phase])
  }

  /** What a caller requires of the record it read before it mutates: stop, that the run is active;
      _reconcile, that it is active and has a Job, and what that Job's state allows; the second half
      of stop, that its stop request is stored. Everybody else mutates unconditionally. */
  predicate Decides(record: Record, change: Change) {
    match change
    case RequestStop => IsActive(record.status.state)
    case Reconcile(terminal, _) =>
      && IsActive(record.status.state) && record.status.jobName.Some?
      && (terminal.Failed? || (terminal.Stopped? <==> record.status.stopRequested))
    case MarkStopped => record.status.stopRequested
    case _ => true
  }

  predicate MayBegin(world: World, change: Change, seen: nat) {
    && WellFormed(change)
    && 0 < seen <= |world.history|
    && Decides(world.history[seen - 1].value.record, change)
  }

  function Apply(world: World, step: Step): World {
    match step
    case BeginMutate(p, change, seen) =>
      if PhaseOf(world, p) == NotStarted && MayBegin(world, change, seen) then Set(world, p, Reading(change, 0))
      else world
    case ReadRecord(p, revision) =>
      (match PhaseOf(world, p)
       case Reading(change, attempt) =>
         if revision > |world.history| then world
         else if revision == 0 || attempt >= MAX_ATTEMPTS then Set(world, p, Ended)
         else
           var write :=
               Write(p, revision, Entry(ApplyChange(world.history[revision - 1].value.record, change), Some(change)));
           Set(world.(sent := world.sent + {write}), p, Sent(change, attempt, write))
       case _ => world)
    case Acknowledged(p) =>
      (match PhaseOf(world, p)
       case Sent(change, _, write) =>
         if Landed(world.history, write) then Set(world, p, Returned(change, write)) else world
       case _ => world)
    case Conflicted(p) =>
      (match PhaseOf(world, p)
       case Sent(change, attempt, write) =>
         if write.expected < |world.history| then Set(world, p, Reading(change, attempt + 1)) else world
       case _ => world)
    case Deliver(write) => if write in world.sent then world.(history := Land(world.history, write)) else world
    case Fail(p) => Set(world, p, Ended)
  }

  function Run(world: World, steps: seq<Step>): World
    decreases |steps|
  {
    if steps == [] then world else Run(Apply(world, steps[0]), steps[1..])
  }

  /** The changes that landed, in the order in which they landed. */
  function LandedChanges(history: seq<Write<Entry>>): seq<Change>
    decreases |history|
  {
    if history == [] then []
    else
      LandedChanges(history[..|history| - 1])
      + match history[|history| - 1].value.change { case Some(change) => [change] case None => [] }
  }

  function Stored(world: World): Record
    requires world.history != []
  {
    world.history[|world.history| - 1].value.record
  }

  ghost predicate Legal(history: seq<Write<Entry>>, write: Write<Entry>) {
    && 0 < write.expected <= |history|
    && write.value.change.Some? && WellFormed(write.value.change.value)
    && write.value.record == ApplyChange(history[write.expected - 1].value.record, write.value.change.value)
  }

  ghost predicate PhaseOk(world: World, phase: Phase) {
    match phase
    case Reading(change, _) => WellFormed(change)
    case Sent(change, _, write) => WellFormed(change) && write in world.sent && write.value.change == Some(change)
    case Returned(change, write) =>
      Landed(world.history, write) && write.value.change == Some(change) && write.expected > 0
    case _ => true
  }

  ghost predicate Recorded(history: seq<Write<Entry>>, i: nat)
    requires i < |history|
  {
    history[i].value.change.Some? && history[i].value.change.value in LandedChanges(history)
  }

  /** The stored record is the replay, on the created one, of the changes that landed. */
  ghost predicate FoldOk(leaseUntil: real, history: seq<Write<Entry>>) {
    && history != []
    && history[0].value == Entry(Created(leaseUntil), None)
    && history[|history| - 1].value.record == Replay(Created(leaseUntil), LandedChanges(history))
    && (forall change :: change in LandedChanges(history) ==> WellFormed(change))
    && (forall i: nat {:trigger Recorded(history, i)} :: 0 < i < |history| ==> Recorded(history, i))
  }

  ghost predicate Inv(leaseUntil: real, world: World) {
    && FoldOk(leaseUntil, world.history)
    && (forall write :: write in world.sent ==> Legal(world.history, write))
    && (forall p :: p in world.phases ==> PhaseOk(world, world.phases[p]))
  }

  lemma LandedChangesSnoc(history: seq<Write<Entry>>, write: Write<Entry>)
    requires write.value.change.Some?
    ensures LandedChanges(history + [write]) == LandedChanges(history) + [write.value.change.value]
  {
    assert (history + [write])[..|history|] == history;
  }

  lemma ReplaySnoc(record: Record, changes: seq<Change>, change: Change)
    ensures Replay(record, changes + [change]) == ApplyChange(Replay(record, changes), change)
  {
    assert (changes + [change])[..|changes|] == changes;
  }

  lemma LandKeepsFold(leaseUntil: real, history: seq<Write<Entry>>, write: Write<Entry>)
    requires FoldOk(leaseUntil, history) && Legal(history, write) && write.expected == |history|
    ensures FoldOk(leaseUntil, history + [write])
  {
    var next := history + [write];
    var change := write.value.change.value;
    LandedChangesSnoc(history, write);
    ReplaySnoc(Created(leaseUntil), LandedChanges(history), change);
    forall i: nat | 0 < i < |next|
      ensures Recorded(next, i)
    {
      if i < |history| {
        assert Recorded(history, i);
      }
    }
  }

  lemma DeliverKeeps(leaseUntil: real, world: World, write: Write<Entry>)
    requires Inv(leaseUntil, world) && write in world.sent && write.expected == |world.history|
    ensures Inv(leaseUntil, world.(history := world.history + [write]))
  {
    LandKeepsFold(leaseUntil, world.history, write);
    var next := world.(history := world.history + [write]);
    forall p | p in next.phases
      ensures PhaseOk(next, next.phases[p])
    {
      assert PhaseOk(world, world.phases[p]);
    }
  }

  lemma FrameKeeps(leaseUntil: real, world: World, next: World, p: nat)
    requires Inv(leaseUntil, world)
    requires next.history == world.history && world.sent <= next.sent
    requires forall write :: write in next.sent && write !in world.sent ==> Legal(world.history, write)
    requires forall q :: q in next.phases && q != p ==> q in world.phases && next.phases[q] == world.phases[q]
    requires PhaseOk(next, PhaseOf(next, p))
    ensures Inv(leaseUntil, next)
  {
    forall q | q in next.phases
      ensures PhaseOk(next, next.phases[q])
    {
      if q != p {
        assert PhaseOk(world, world.phases[q]);
      }
    }
  }

  lemma InvStep(leaseUntil: real, world: World, step: Step)
    requires Inv(leaseUntil, world)
    ensures Inv(leaseUntil, Apply(world, step)) && world.history <= Apply(world, step).history
  {
    var next := Apply(world, step);
    if step.Deliver? {
      if next != world {
        DeliverKeeps(leaseUntil, world, step.write);
      }
    } else {
      assert PhaseOk(world, PhaseOf(world, step.p));
      FrameKeeps(leaseUntil, world, next, step.p);
    }
  }

  lemma {:induction false} InvRun(leaseUntil: real, world: World, steps: seq<Step>)
    requires Inv(leaseUntil, world)
    ensures Inv(leaseUntil, Run(world, steps)) && world.history <= Run(world, steps).history
    decreases |steps|
  {
    if steps != [] {
      InvStep(leaseUntil, world, steps[0]);
      InvRun(leaseUntil, Apply(world, steps[0]), steps[1..]);
    }
  }

  lemma InitialOk(leaseUntil: real)
    ensures Inv(leaseUntil, Initial(leaseUntil))
  {
    var history := Initial(leaseUntil).history;
    assert history[..0] == [];
    assert LandedChanges(history) == [];
  }

  // ----- Theorems -----

  /** No lost updates: the record is always the fold, in landing order, of the changes that landed,
      and every call that returned has its change among them. */
  lemma RecordIsFold(leaseUntil: real, steps: seq<Step>)
    ensures var world := Run(Initial(leaseUntil), steps);
            && world.history != []
            && Stored(world) == Replay(Created(leaseUntil), LandedChanges(world.history))
            && forall p :: p in world.phases && world.phases[p].Returned? ==>
                 world.phases[p].change in LandedChanges(world.history)
  {
    InitialOk(leaseUntil);
    InvRun(leaseUntil, Initial(leaseUntil), steps);
    var world := Run(Initial(leaseUntil), steps);
    forall p | p in world.phases && world.phases[p].Returned?
      ensures world.phases[p].change in LandedChanges(world.history)
    {
      assert PhaseOk(world, world.phases[p]);
      assert Recorded(world.history, world.phases[p].write.expected);
    }
  }

  lemma {:induction false} LandedChangesGrow(a: seq<Write<Entry>>, b: seq<Write<Entry>>)
    requires a <= b
    ensures LandedChanges(a) <= LandedChanges(b)
    decreases |b|
  {
    if |a| < |b| {
      LandedChangesGrow(a, b[..|b| - 1]);
    } else {
      assert a == b;
    }
  }

  lemma {:induction false} RunAppend(world: World, a: seq<Step>, b: seq<Step>)
    ensures Run(world, a + b) == Run(Run(world, a), b)
    decreases |a|
  {
    if a == [] {
      assert a + b == b;
    } else {
      assert (a + b)[1..] == a[1..] + b;
      RunAppend(Apply(world, a[0]), a[1..], b);
    }
  }

  lemma FlagsOfFold(leaseUntil: real, world: World)
    requires FoldOk(leaseUntil, world.history)
    ensures !(Stored(world).status.state.Completed? && Stored(world).status.stopRequested)
    ensures Stored(world).status.stopRequested <==> RequestStop in LandedChanges(world.history)
  {
    CompletedIff(Created(leaseUntil), LandedChanges(world.history));
    StopRequestedIff(Created(leaseUntil), LandedChanges(world.history));
  }

  /** Over all interleavings of controllers, Job and heartbeat: a run that is completed has never
      been asked to stop, and a stop request, once stored, is never cleared. */
  lemma CompletedNeverStopRequested(leaseUntil: real, steps: seq<Step>, more: seq<Step>)
    ensures var now := Run(Initial(leaseUntil), steps); var later := Run(Initial(leaseUntil), steps + more);
            && now.history != [] && later.history != []
            && !(Stored(now).status.state.Completed? && Stored(now).status.stopRequested)
            && (Stored(now).status.stopRequested ==> Stored(later).status.stopRequested)
  {
    var now, later := Run(Initial(leaseUntil), steps), Run(Initial(leaseUntil), steps + more);
    InitialOk(leaseUntil);
    InvRun(leaseUntil, Initial(leaseUntil), steps);
    InvRun(leaseUntil, now, more);
    RunAppend(Initial(leaseUntil), steps, more);
    LandedChangesGrow(now.history, later.history);
    FlagsOfFold(leaseUntil, now);
    FlagsOfFold(leaseUntil, later);
  }

  /** The record is active exactly when the last change to its state that landed was a stop request,
      a start or a running mark, whatever its caller had checked. */
  lemma ActiveExactlyWhen(leaseUntil: real, steps: seq<Step>)
    ensures var world := Run(Initial(leaseUntil), steps);
            && world.history != []
            && var changes := LandedChanges(world.history);
               var last := LastWith(changes, SetsState);
               IsActive(Stored(world).status.state) <==> last < 0 || Activates(changes[last])
  {
    InitialOk(leaseUntil);
    InvRun(leaseUntil, Initial(leaseUntil), steps);
    ActiveIff(Created(leaseUntil), LandedChanges(Run(Initial(leaseUntil), steps).history));
  }

  /** Over all interleavings every field of the stored status is what the last change to it that
      landed says. */
  lemma StatusIsLastSaid(leaseUntil: real, steps: seq<Step>)
    ensures var world := Run(Initial(leaseUntil), steps);
            && world.history != []
            && var changes := LandedChanges(world.history);
               var status := Stored(world).status;
               var state, finish, message :=
                   LastWith(changes, SetsState), LastFinish(changes), LastWith(changes, GivesMessage);
               var job, count, lease :=
                   LastWith(changes, NamesJob), LastWith(changes, CountsWorkers), LastWith(changes, TouchesLease);
               && status.state ==
                    (if state < 0 then Submitted else StateSetBy(changes[state], RequestStop in changes[..state]))
               && status.exitCode == (if finish < 0 then None else Some(changes[finish].code))
               && status.message ==
                    (if message < 0 then None
                     else if changes[message].Finish? then changes[message].note else Some(changes[message].reason))
               && status.jobName == (if job < 0 then None else Some(changes[job].name))
               && status.workerCount == (if count < 0 then None else Some(changes[count].workers))
               && status.leaseUntil ==
                    (if lease < 0 then Some(leaseUntil)
                     else if changes[lease].Finish? then None else Some(changes[lease].until))
  {
    RecordIsFold(leaseUntil, steps);
    var changes := LandedChanges(Run(Initial(leaseUntil), steps).history);
    StateIsLastSet(Created(leaseUntil), changes);
    ExitCodeIsLastFinish(Created(leaseUntil), changes);
    MessageIsLastGiven(Created(leaseUntil), changes);
    JobIsLastNamed(Created(leaseUntil), changes);
    FinalLeaseIff(Created(leaseUntil), changes);
  }

  lemma RunSnoc(world: World, steps: seq<Step>, step: Step)
    ensures Run(world, steps + [step]) == Apply(Run(world, steps), step)
  {
    RunAppend(world, steps, [step]);
    assert [step][1..] == [];
  }

  /** What the write of a change to the stored record is. */
  function NextWrite(world: World, p: nat, change: Change): Write<Entry>
    requires world.history != []
  {
    Write(p, |world.history|, Entry(ApplyChange(Stored(world), change), Some(change)))
  }

  /** An undisturbed mutate call that has begun gets its change stored. */
  lemma MutateLands(world: World, p: nat, change: Change) returns (steps: seq<Step>)
    requires world.history != [] && PhaseOf(world, p) == Reading(change, 0)
    ensures Run(world, steps).history == world.history + [NextWrite(world, p, change)]
    ensures forall q :: q != p ==> PhaseOf(Run(world, steps), q) == PhaseOf(world, q)
  {
    var n, write := |world.history|, NextWrite(world, p, change);
    var w1 := Apply(world, ReadRecord(p, n));
    assert w1 == Set(world.(sent := world.sent + {write}), p, Sent(change, 0, write));
    assert Apply(w1, Deliver(write)) == w1.(history := world.history + [write]);
    steps := [];
    RunSnoc(world, steps, ReadRecord(p, n));
    steps := steps + [ReadRecord(p, n)];
    RunSnoc(world, steps, Deliver(write));
    steps := steps + [Deliver(write)];
  }

  lemma BeginBoth(world: World, p: nat, finish: Change, q: nat, change: Change) returns (steps: seq<Step>)
    requires PhaseOf(world, p) == NotStarted && PhaseOf(world, q) == NotStarted && p != q
    requires MayBegin(world, change, |world.history|) && MayBegin(world, finish, |world.history|)
    ensures var next := Run(world, steps);
            && next.history == world.history
            && PhaseOf(next, p) == Reading(finish, 0) && PhaseOf(next, q) == Reading(change, 0)
  {
    var n := |world.history|;
    var first, second := BeginMutate(q, change, n), BeginMutate(p, finish, n);
    RunSnoc(world, [], first);
    RunSnoc(world, [first], second);
    assert [] + [first] == [first];
    steps := [first] + [second];
  }

  lemma LandBoth(world: World, p: nat, finish: Change, q: nat, change: Change) returns (steps: seq<Step>)
    requires world.history != [] && p != q
    requires PhaseOf(world, p) == Reading(finish, 0) && PhaseOf(world, q) == Reading(change, 0)
    ensures var first := ApplyChange(Stored(world), finish);
            Run(world, steps).history == world.history
              + [Write(p, |world.history|, Entry(first, Some(finish)))]
              + [Write(q, |world.history| + 1, Entry(ApplyChange(first, change), Some(change)))]
  {
    var a := MutateLands(world, p, finish);
    var b := MutateLands(Run(world, a), q, change);
    steps := a + b;
    RunAppend(world, a, b);
  }

  /** From every reachable active record: a stop checks the state, the Job's finish lands and makes
      it terminal, and the stop's write then makes it active again. So no terminal state is safe from
      a stop that was decided on before it. */
  lemma StopMayReviveFinished(leaseUntil: real, steps: seq<Step>, p: nat, q: nat, finish: Change)
    returns (more: seq<Step>)
    requires var world := Run(Initial(leaseUntil), steps);
             && world.history != [] && IsActive(Stored(world).status.state)
             && PhaseOf(world, p) == NotStarted && PhaseOf(world, q) == NotStarted
    requires p != q && finish.Finish? && WellFormed(finish)
    ensures var world := Run(Initial(leaseUntil), steps); var later := Run(Initial(leaseUntil), steps + more);
            var finished := ApplyChange(Stored(world), finish);
            var revived := ApplyChange(finished, RequestStop);
            && later.history == world.history
                 + [Write(p, |world.history|, Entry(finished, Some(finish)))]
                 + [Write(q, |world.history| + 1, Entry(revived, Some(RequestStop)))]
            && !IsActive(finished.status.state) && revived.status.state == Stopping
  {
    var world := Run(Initial(leaseUntil), steps);
    var begin := BeginBoth(world, p, finish, q, RequestStop);
    var land := LandBoth(Run(world, begin), p, finish, q, RequestStop);
    more := begin + land;
    RunAppend(world, begin, land);
    RunAppend(Initial(leaseUntil), steps, more);
  }

  /** Such a run from the created record, in which the Job completes. */
  lemma CompletedRunRevived(leaseUntil: real) returns (steps: seq<Step>)
    ensures var history := Run(Initial(leaseUntil), steps).history;
            && |history| == 3
            && history[1].value.record.status.state == Completed
            && history[2].value.record.status.state == Stopping
  {
    var finish := Finish(Completed, 0, None, None, map[]);
    steps := StopMayReviveFinished(leaseUntil, [], 0, 1, finish);
    assert [] + steps == steps;
  }

  /** Once a finish has landed, summary and artifacts are never lost: in every continuation they are
      those of a finish that landed, the last one, which is this one or a later one. */
  lemma FinishedSummaryIsKept(leaseUntil: real, steps: seq<Step>, more: seq<Step>, k: nat)
    requires var changes := LandedChanges(Run(Initial(leaseUntil), steps).history);
             k < |changes| && changes[k].Finish?
    ensures var later := Run(Initial(leaseUntil), steps + more);
            && later.history != []
            && var changes := LandedChanges(later.history);
               var last := LastFinish(changes);
               && k <= last
               && LandedChanges(Run(Initial(leaseUntil), steps).history) <= changes
               && Stored(later).summary == changes[last].summary && Stored(later).artifacts == changes[last].artifacts
  {
    LaterFold(leaseUntil, steps, more);
    var changes := LandedChanges(Run(Initial(leaseUntil), steps + more).history);
    assert changes[k].Finish?;
    SummaryIsLastFinish(Created(leaseUntil), changes);
  }

  lemma LaterFold(leaseUntil: real, steps: seq<Step>, more: seq<Step>)
    ensures var now, later := Run(Initial(leaseUntil), steps), Run(Initial(leaseUntil), steps + more);
            && later.history != [] && LandedChanges(now.history) <= LandedChanges(later.history)
            && Stored(later) == Replay(Created(leaseUntil), LandedChanges(later.history))
  {
    RecordIsFold(leaseUntil, steps);
    RecordIsFold(leaseUntil, steps + more);
    InitialOk(leaseUntil);
    InvRun(leaseUntil, Initial(leaseUntil), steps);
    InvRun(leaseUntil, Run(Initial(leaseUntil), steps), more);
    RunAppend(Initial(leaseUntil), steps, more);
    LandedChangesGrow(Run(Initial(leaseUntil), steps).history, Run(Initial(leaseUntil), steps + more).history);
  }

  /** With a single finishing Job they never change again. */
  lemma OnlyFinishIsKept(leaseUntil: real, steps: seq<Step>, finish: Change)
    requires finish.Finish?
    requires var changes := LandedChanges(Run(Initial(leaseUntil), steps).history);
             finish in changes && forall c :: c in changes && c.Finish? ==> c == finish
    ensures var world := Run(Initial(leaseUntil), steps);
            && world.history != []
            && Stored(world).summary == finish.summary && Stored(world).artifacts == finish.artifacts
  {
    RecordIsFold(leaseUntil, steps);
    SummaryIsLastFinish(Created(leaseUntil), LandedChanges(Run(Initial(leaseUntil), steps).history));
  }
}
