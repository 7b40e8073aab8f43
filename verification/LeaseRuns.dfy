/**
 Controllers and Jobs of any number of runs on one lease key and one shared monotone clock.

 Each call of _acquire_lease, renew_lease or _release_lease is a process of its own. A run ID is
 fresh: only one acquire call ever uses it, and its Job renews and its releases happen only after
 that call returned. Reads may be stale. A request, once sent, may land at any later time or never,
 and its sender may see success, a conflict (even with itself, after a replay) or an error.
 */
module LeaseRuns {
  import opened Options
  import opened RevisionedStore
  import opened RunLease

  datatype Phase =
    | NotStarted
    | StartingTake(runId: string, attempt: nat)
    | ReadingToTake(runId: string, now: real, attempt: nat)
    | SentTake(runId: string, attempt: nat, write: Write<Lease>)
    | ReadingToRenew(runId: string, until: real, attempt: nat)
    | SentRenew(runId: string, until: real, attempt: nat, write: Write<Lease>)
    | ReadingToRelease(runId: string, attempt: nat)
    | SentRelease(runId: string, attempt: nat, write: Write<Lease>)
    | HasAcquired(runId: string, write: Write<Lease>)
    | HasRenewed(runId: string, write: Write<Lease>)
    | HasReleased(runId: string, write: Write<Lease>)
    | Ended

  /** `takes` and `updates` are the requests ever sent, `used` the run IDs in use, and `acquired`
      gives the position of the acquired lease of each run whose acquire call has returned. Each
      request carries its own number, so that no two requests are the same. */
  datatype World = World(
    history: seq<Write<Lease>>,
    clock: real,
    takes: set<Write<Lease>>,
    updates: set<Write<Lease>>,
    used: set<string>,
    acquired: map<string, nat>,
    phases: map<nat, Phase>,
    requests: nat)

  datatype Step =
    | BeginAcquire(p: nat, runId: string)
    | BeginRenew(p: nat, runId: string)
    | BeginRelease(p: nat, runId: string)
    | ReadClock(p: nat)
    | ReadLease(p: nat, revision: nat)
    | Acknowledged(p: nat)
    | Conflicted(p: nat)
    | Deliver(write: Write<Lease>)
    | Fail(p: nat)
    | Tick(elapsed: real)

  /** How long each run asks the lease for. */
  type Durations = string -> real

  function Initial(clock: real): World {
    World([], clock, {}, {}, {}, map[], map[], 0)
  }

  function PhaseOf(world: World, p: nat): Phase {
    if p in world.phases then world.phases[p] else NotStarted
  }

  function Set(world: World, p: nat, phase: Phase): World {
    world.(phases := world.phases[p := phase])
  }

  function NextTry(phase: Phase, attempt: nat): Phase {
    if attempt < MAX_ATTEMPTS then phase else Ended
  }

  function TakeRead(durations: Durations, world: World, p: nat, runId: string, now: real, attempt: nat,
      revision: nat): World
    requires revision <= |world.history|
  {
    match DecideTake(ValueAt(world.history, revision), runId, now, durations(runId))
    case StillActive(_) => Set(world, p, Ended)
    case TakeLease(lease) =>
      var write := Write(world.requests, revision, lease);
      Set(world.(takes := world.takes + {write}, requests := world.requests + 1), p, SentTake(runId, attempt, write))
  }

  function RenewRead(world: World, p: nat, runId: string, until: real, attempt: nat, revision: nat): World
    requires revision <= |world.history|
  {
    match DecideRenew(ValueAt(world.history, revision), runId, until)
    case Renew(lease) =>
      var write := Write(world.requests, revision, lease);
      Set(world.(updates := world.updates + {write}, requests := world.requests + 1), p,
          SentRenew(runId, until, attempt, write))
    case _ => Set(world, p, Ended)
  }

  function ReleaseRead(world: World, p: nat, runId: string, attempt: nat, revision: nat): World
    requires revision <= |world.history|
  {
    match DecideRelease(ValueAt(world.history, revision), runId)
    case Release(lease) =>
      var write := Write(world.requests, revision, lease);
      Set(world.(updates := world.updates + {write}, requests := world.requests + 1), p,
          SentRelease(runId, attempt, write))
    case NothingToRelease => Set(world, p, Ended)
  }

  function Acknowledge(world: World, p: nat): World {
    match PhaseOf(world, p)
    case SentTake(runId, _, write) =>
      if Landed(world.history, write) then
        Set(world.(acquired := world.acquired[runId := write.expected]), p, HasAcquired(runId, write))
      else world
    case SentRenew(runId, _, _, write) =>
      if Landed(world.history, write) then Set(world, p, HasRenewed(runId, write)) else world
    case SentRelease(runId, _, write) =>
      if Landed(world.history, write) then Set(world, p, HasReleased(runId, write)) else world
    case _ => world
  }

  /** The next attempt of a call whose write lost against another. */
  function AfterConflict(phase: Phase): Phase {
    match phase
    case SentTake(runId, attempt, _) => NextTry(StartingTake(runId, attempt + 1), attempt + 1)
    case SentRenew(runId, until, attempt, _) => NextTry(ReadingToRenew(runId, until, attempt + 1), attempt + 1)
    case SentRelease(runId, attempt, _) => NextTry(ReadingToRelease(runId, attempt + 1), attempt + 1)
    case _ => phase
  }

  /** The write of the phase, if it has one in flight, meets a newer revision. */
  predicate LosesRace(world: World, phase: Phase) {
    (phase.SentTake? || phase.SentRenew? || phase.SentRelease?) && phase.write.expected < |world.history|
  }

  function Conflict(world: World, p: nat): World {
    if LosesRace(world, PhaseOf(world, p)) then Set(world, p, AfterConflict(PhaseOf(world, p))) else world
  }

  function Read(durations: Durations, world: World, p: nat, revision: nat): World {
    if revision <= |world.history| then
      match PhaseOf(world, p)
      case ReadingToTake(runId, now, attempt) => TakeRead(durations, world, p, runId, now, attempt, revision)
      case ReadingToRenew(runId, until, attempt) => RenewRead(world, p, runId, until, attempt, revision)
      case ReadingToRelease(runId, attempt) => ReleaseRead(world, p, runId, attempt, revision)
      case _ => world
    else world
  }

  function Apply(durations: Durations, world: World, step: Step): World {
    match step
    case BeginAcquire(p, runId) =>
      if PhaseOf(world, p) == NotStarted && runId !in world.used then
        Set(world.(used := world.used + {runId}), p, StartingTake(runId, 0))
      else world
    case BeginRenew(p, runId) =>
      if PhaseOf(world, p) == NotStarted && runId in world.acquired then
        Set(world, p, ReadingToRenew(runId, world.clock + LEASE_SECONDS, 0))
      else world
    case BeginRelease(p, runId) =>
      if PhaseOf(world, p) == NotStarted && runId in world.acquired then Set(world, p, ReadingToRelease(runId, 0))
      else world
    case ReadClock(p) =>
      (match PhaseOf(world, p)
       case StartingTake(runId, attempt) => Set(world, p, ReadingToTake(runId, world.clock, attempt))
       case _ => world)
    case ReadLease(p, revision) => Read(durations, world, p, revision)
    case Acknowledged(p) => Acknowledge(world, p)
    case Conflicted(p) => Conflict(world, p)
    case Deliver(write) =>
      if write in world.takes || write in world.updates then world.(history := Land(world.history, write)) else world
    case Fail(p) => Set(world, p, Ended)
    case Tick(elapsed) => if elapsed >= 0.0 then world.(clock := world.clock + elapsed) else world
  }

  function Run(durations: Durations, world: World, steps: seq<Step>): World
    decreases |steps|
  {
    if steps == [] then world else Run(durations, Apply(durations, world, steps[0]), steps[1..])
  }

  // ----- The chain of leases -----

  /** A take: over an absent lease or one that had expired at the taker's clock reading. */
  ghost predicate LegalTake(durations: Durations, clock: real, history: seq<Write<Lease>>, write: Write<Lease>)
    requires write.expected <= |history|
  {
    var now := write.value.until - durations(write.value.runId);
    && !write.value.released
    && now <= clock
    && (write.expected > 0 ==> history[write.expected - 1].value.until <= now)
  }

  /** A renewal or a release: of the lease of the same run. Only an unreleased one is renewed. */
  ghost predicate LegalUpdate(history: seq<Write<Lease>>, write: Write<Lease>)
    requires write.expected <= |history|
  {
    && write.expected > 0
    && var before := history[write.expected - 1].value;
    && before.runId == write.value.runId
    && if write.value.released then write.value.until == 0.0 else !before.released
  }

  ghost predicate RequestsOk(durations: Durations, world: World) {
    && world.takes !! world.updates
    && (forall write :: write in world.takes ==>
          && write.writer < world.requests && write.expected <= |world.history|
          && LegalTake(durations, world.clock, world.history, write) && write.value.runId in world.used)
    && (forall write :: write in world.updates ==>
          && write.writer < world.requests && write.expected <= |world.history|
          && LegalUpdate(world.history, write) && write.value.runId in world.acquired)
  }

  /** What landed was sent; an update landed only after its run's acquired lease. */
  ghost predicate LandedAt(world: World, i: nat)
    requires i < |world.history|
  {
    var write := world.history[i];
    && write.expected == i
    && (write in world.takes
        || (write in world.updates && write.value.runId in world.acquired && world.acquired[write.value.runId] < i))
  }

  ghost predicate LandedOk(world: World) {
    forall i: nat {:trigger LandedAt(world, i)} :: i < |world.history| ==> LandedAt(world, i)
  }

  /** No take of an acquired run can land any more, and none landed after the acquired one. */
  ghost predicate AcquiredOk(world: World) {
    forall runId :: runId in world.acquired ==>
      var a := world.acquired[runId];
      && a < |world.history| && world.history[a].value.runId == runId && !world.history[a].value.released
      && (forall write :: write in world.takes && write.value.runId == runId ==>
            write.expected < |world.history| && (Landed(world.history, write) ==> write.expected <= a))
  }

  /** The earlier takes of a run whose acquire call is still waiting for a reply. */
  ghost predicate PendingOk(world: World, runId: string, write: Write<Lease>) {
    && write in world.takes && write.value.runId == runId
    && forall other :: other in world.takes && other.value.runId == runId && other != write ==>
         && other.expected < |world.history|
         && (Landed(world.history, write) ==> other.expected < write.expected)
  }

  ghost predicate NoTakePending(world: World, runId: string) {
    && runId in world.used && runId !in world.acquired
    && forall write :: write in world.takes && write.value.runId == runId ==> write.expected < |world.history|
  }

  ghost predicate PhaseOk(world: World, phase: Phase) {
    match phase
    case StartingTake(runId, _) => NoTakePending(world, runId)
    case ReadingToTake(runId, now, _) => NoTakePending(world, runId) && now <= world.clock
    case SentTake(runId, _, write) =>
      runId in world.used && runId !in world.acquired && PendingOk(world, runId, write)
    case ReadingToRenew(runId, _, _) => runId in world.acquired
    case SentRenew(runId, _, _, write) =>
      runId in world.acquired && write in world.updates && write.value.runId == runId && !write.value.released
    case ReadingToRelease(runId, _) => runId in world.acquired
    case SentRelease(runId, _, write) =>
      runId in world.acquired && write in world.updates && write.value.runId == runId && write.value.released
    case HasAcquired(runId, write) =>
      runId in world.acquired && world.acquired[runId] == write.expected && Landed(world.history, write)
    case HasRenewed(runId, write) =>
      runId in world.acquired && write in world.updates && write.value.runId == runId && !write.value.released
          && Landed(world.history, write)
    case HasReleased(runId, write) =>
      runId in world.acquired && write in world.updates && write.value == Lease(runId, 0.0, true)
          && Landed(world.history, write)
    case _ => true
  }

  predicate IsTaking(phase: Phase) {
    phase.StartingTake? || phase.ReadingToTake? || phase.SentTake?
  }

  predicate TakesFor(phase: Phase, runId: string) {
    IsTaking(phase) && phase.runId == runId
  }

  /** One acquire call per run ID. */
  ghost predicate FreshOk(world: World) {
    && (forall p, q :: p in world.phases && q in world.phases && p != q && IsTaking(world.phases[p]) ==>
          !TakesFor(world.phases[q], world.phases[p].runId))
  }

  ghost predicate Inv(durations: Durations, world: World) {
    && RequestsOk(durations, world)
    && LandedOk(world)
    && AcquiredOk(world)
    && (forall runId :: runId in world.acquired ==> runId in world.used)
    && (forall p :: p in world.phases ==> PhaseOk(world, world.phases[p]))
    && FreshOk(world)
  }

  // ----- Every step keeps the invariant -----

  lemma DeliverKeepsRequests(durations: Durations, world: World, write: Write<Lease>)
    requires RequestsOk(durations, world)
    ensures RequestsOk(durations, world.(history := world.history + [write]))
  {
    var next := world.(history := world.history + [write]);
    assert forall i :: 0 <= i < |world.history| ==> next.history[i] == world.history[i];
  }

  lemma DeliverKeepsLanded(durations: Durations, world: World, write: Write<Lease>)
    requires Inv(durations, world) && (write in world.takes || write in world.updates)
        && write.expected == |world.history|
    ensures LandedOk(world.(history := world.history + [write]))
  {
    var next := world.(history := world.history + [write]);
    forall i: nat | i < |next.history|
      ensures LandedAt(next, i)
    {
      if i < |world.history| {
        assert LandedAt(world, i);
      }
    }
  }

  lemma DeliverKeepsAcquired(world: World, write: Write<Lease>)
    requires AcquiredOk(world) && write.expected == |world.history|
    requires write in world.takes || (write in world.updates && write.value.runId in world.acquired)
    ensures AcquiredOk(world.(history := world.history + [write]))
  {
    var next := world.(history := world.history + [write]);
    assert forall w: Write<Lease> :: w.expected < |world.history| ==>
        Landed(next.history, w) == Landed(world.history, w);
  }

  lemma DeliverKeeps(durations: Durations, world: World, write: Write<Lease>)
    requires Inv(durations, world) && (write in world.takes || write in world.updates)
    ensures Inv(durations, world.(history := Land(world.history, write)))
  {
    if write.expected == |world.history| {
      DeliverKeepsRequests(durations, world, write);
      DeliverKeepsLanded(durations, world, write);
      DeliverKeepsAcquired(world, write);
      var next := world.(history := world.history + [write]);
      forall p | p in next.phases
        ensures PhaseOk(next, next.phases[p])
      {
        assert PhaseOk(world, world.phases[p]);
      }
    }
  }

  lemma SetKeeps(durations: Durations, world: World, p: nat, phase: Phase)
    requires Inv(durations, world) && PhaseOk(world, phase)
    requires IsTaking(phase) ==> TakesFor(PhaseOf(world, p), phase.runId)
    ensures Inv(durations, Set(world, p, phase))
  {
    var next := Set(world, p, phase);
    assert forall i: nat :: i < |world.history| && LandedAt(world, i) ==> LandedAt(next, i);
    forall q | q in next.phases
      ensures PhaseOk(next, next.phases[q])
    {
      if q != p {
        assert PhaseOk(world, world.phases[q]);
      }
    }
  }

  lemma BeginAcquireKeeps(durations: Durations, world: World, p: nat, runId: string)
    requires Inv(durations, world) && PhaseOf(world, p) == NotStarted && runId !in world.used
    ensures Inv(durations, Set(world.(used := world.used + {runId}), p, StartingTake(runId, 0)))
  {
    var next := Set(world.(used := world.used + {runId}), p, StartingTake(runId, 0));
    forall q | q in next.phases
      ensures PhaseOk(next, next.phases[q]) && (q != p ==> !TakesFor(next.phases[q], runId))
    {
      if q != p {
        assert PhaseOk(world, world.phases[q]);
      }
    }
    assert forall i: nat :: i < |world.history| && LandedAt(world, i) ==> LandedAt(next, i);
  }

  lemma SendTakeKeeps(durations: Durations, world: World, p: nat, runId: string, attempt: nat, write: Write<Lease>)
    requires Inv(durations, world) && TakesFor(PhaseOf(world, p), runId) && PhaseOf(world, p).ReadingToTake?
    requires write.writer == world.requests && write.expected <= |world.history| && write.value.runId == runId
    requires LegalTake(durations, world.clock, world.history, write)
    ensures Inv(durations, Set(world.(takes := world.takes + {write}, requests := world.requests + 1), p,
        SentTake(runId, attempt, write)))
  {
    var next := Set(world.(takes := world.takes + {write}, requests := world.requests + 1), p,
        SentTake(runId, attempt, write));
    assert PhaseOk(world, world.phases[p]);
    if write.expected < |world.history| {
      assert LandedAt(world, write.expected);
    }
    assert !Landed(world.history, write);
    assert forall i: nat :: i < |world.history| && LandedAt(world, i) ==> LandedAt(next, i);
    forall q | q in next.phases
      ensures PhaseOk(next, next.phases[q])
    {
      if q != p {
        assert PhaseOk(world, world.phases[q]);
        assert !TakesFor(world.phases[q], runId);
      }
    }
  }

  lemma SendUpdateKeeps(durations: Durations, world: World, p: nat, runId: string, write: Write<Lease>, phase: Phase)
    requires Inv(durations, world) && runId in world.acquired
    requires write.writer == world.requests && write.expected <= |world.history| && write.value.runId == runId
    requires LegalUpdate(world.history, write)
    requires !IsTaking(phase)
    requires PhaseOk(world.(updates := world.updates + {write}, requests := world.requests + 1), phase)
    ensures Inv(durations, Set(world.(updates := world.updates + {write}, requests := world.requests + 1), p, phase))
  {
    var next := Set(world.(updates := world.updates + {write}, requests := world.requests + 1), p, phase);
    assert forall i: nat :: i < |world.history| && LandedAt(world, i) ==> LandedAt(next, i);
    forall q | q in next.phases
      ensures PhaseOk(next, next.phases[q])
    {
      if q != p {
        assert PhaseOk(world, world.phases[q]);
      }
    }
  }

  lemma TakeAcknowledgedKeeps(durations: Durations, world: World, p: nat, runId: string, attempt: nat,
      write: Write<Lease>)
    requires Inv(durations, world) && PhaseOf(world, p) == SentTake(runId, attempt, write)
        && Landed(world.history, write)
    ensures Inv(durations,
        Set(world.(acquired := world.acquired[runId := write.expected]), p, HasAcquired(runId, write)))
  {
    var next := Set(world.(acquired := world.acquired[runId := write.expected]), p, HasAcquired(runId, write));
    assert PhaseOk(world, world.phases[p]);
    assert forall i: nat :: i < |world.history| && LandedAt(world, i) ==> LandedAt(next, i);
    forall q | q in next.phases
      ensures PhaseOk(next, next.phases[q])
    {
      if q != p {
        assert PhaseOk(world, world.phases[q]);
        assert !TakesFor(world.phases[q], runId);
      }
    }
  }

  lemma TakeReadKeeps(
    durations: Durations, world: World, p: nat, runId: string, now: real, attempt: nat, revision: nat)
    requires Inv(durations, world) && PhaseOf(world, p) == ReadingToTake(runId, now, attempt)
    requires revision <= |world.history|
    ensures Inv(durations, TakeRead(durations, world, p, runId, now, attempt, revision))
  {
    assert PhaseOk(world, world.phases[p]);
    var decision := DecideTake(ValueAt(world.history, revision), runId, now, durations(runId));
    if decision.TakeLease? {
      SendTakeKeeps(durations, world, p, runId, attempt, Write(world.requests, revision, decision.lease));
    } else {
      SetKeeps(durations, world, p, Ended);
    }
  }

  lemma RenewReadKeeps(durations: Durations, world: World, p: nat, runId: string, until: real, attempt: nat,
      revision: nat)
    requires Inv(durations, world) && runId in world.acquired && revision <= |world.history|
    ensures Inv(durations, RenewRead(world, p, runId, until, attempt, revision))
  {
    var decision := DecideRenew(ValueAt(world.history, revision), runId, until);
    if decision.Renew? {
      var write := Write(world.requests, revision, decision.lease);
      SendUpdateKeeps(durations, world, p, runId, write, SentRenew(runId, until, attempt, write));
    } else {
      SetKeeps(durations, world, p, Ended);
    }
  }

  lemma ReleaseReadKeeps(durations: Durations, world: World, p: nat, runId: string, attempt: nat, revision: nat)
    requires Inv(durations, world) && runId in world.acquired && revision <= |world.history|
    ensures Inv(durations, ReleaseRead(world, p, runId, attempt, revision))
  {
    var decision := DecideRelease(ValueAt(world.history, revision), runId);
    if decision.Release? {
      var write := Write(world.requests, revision, decision.lease);
      SendUpdateKeeps(durations, world, p, runId, write, SentRelease(runId, attempt, write));
    } else {
      SetKeeps(durations, world, p, Ended);
    }
  }

  lemma ReadClockKeeps(durations: Durations, world: World, p: nat)
    requires Inv(durations, world)
    ensures Inv(durations, Apply(durations, world, ReadClock(p)))
  {
    var phase := PhaseOf(world, p);
    if phase.StartingTake? {
      assert PhaseOk(world, world.phases[p]);
      SetKeeps(durations, world, p, ReadingToTake(phase.runId, world.clock, phase.attempt));
    }
  }

  lemma ReadKeeps(durations: Durations, world: World, p: nat, revision: nat)
    requires Inv(durations, world)
    ensures Inv(durations, Read(durations, world, p, revision))
  {
    if revision <= |world.history| && p in world.phases {
      var phase := world.phases[p];
      assert PhaseOk(world, phase);
      match phase
      case ReadingToTake(runId, now, attempt) => TakeReadKeeps(durations, world, p, runId, now, attempt, revision);
      case ReadingToRenew(runId, until, attempt) =>
        RenewReadKeeps(durations, world, p, runId, until, attempt, revision);
      case ReadingToRelease(runId, attempt) => ReleaseReadKeeps(durations, world, p, runId, attempt, revision);
      case _ =>
    }
  }

  lemma AcknowledgeKeeps(durations: Durations, world: World, p: nat)
    requires Inv(durations, world)
    ensures Inv(durations, Acknowledge(world, p))
  {
    var phase := PhaseOf(world, p);
    if p in world.phases {
      assert PhaseOk(world, phase);
      match phase
      case SentTake(runId, attempt, write) =>
        if Landed(world.history, write) {
          TakeAcknowledgedKeeps(durations, world, p, runId, attempt, write);
        }
      case SentRenew(runId, _, _, write) =>
        if Landed(world.history, write) {
          SetKeeps(durations, world, p, HasRenewed(runId, write));
        }
      case SentRelease(runId, _, write) =>
        if Landed(world.history, write) {
          SetKeeps(durations, world, p, HasReleased(runId, write));
        }
      case _ =>
    }
  }

  lemma AfterConflictOk(world: World, phase: Phase)
    requires PhaseOk(world, phase) && LosesRace(world, phase)
    ensures var next := AfterConflict(phase);
            PhaseOk(world, next) && (IsTaking(next) ==> TakesFor(phase, next.runId))
  {
  }

  lemma ConflictKeeps(durations: Durations, world: World, p: nat)
    requires Inv(durations, world)
    ensures Inv(durations, Conflict(world, p))
  {
    if LosesRace(world, PhaseOf(world, p)) {
      assert PhaseOk(world, world.phases[p]);
      AfterConflictOk(world, world.phases[p]);
      SetKeeps(durations, world, p, AfterConflict(world.phases[p]));
    }
  }

  lemma TickKeeps(durations: Durations, world: World, elapsed: real)
    requires Inv(durations, world) && elapsed >= 0.0
    ensures Inv(durations, world.(clock := world.clock + elapsed))
  {
    var next := world.(clock := world.clock + elapsed);
    assert forall i: nat :: i < |world.history| && LandedAt(world, i) ==> LandedAt(next, i);
    forall q | q in next.phases
      ensures PhaseOk(next, next.phases[q])
    {
      assert PhaseOk(world, world.phases[q]);
    }
  }

  lemma InvStep(durations: Durations, world: World, step: Step)
    requires Inv(durations, world)
    ensures Inv(durations, Apply(durations, world, step))
  {
    match step
    case BeginAcquire(p, runId) =>
      if PhaseOf(world, p) == NotStarted && runId !in world.used {
        BeginAcquireKeeps(durations, world, p, runId);
      }
    case BeginRenew(p, runId) =>
      if runId in world.acquired {
        SetKeeps(durations, world, p, ReadingToRenew(runId, world.clock + LEASE_SECONDS, 0));
      }
    case BeginRelease(p, runId) =>
      if runId in world.acquired {
        SetKeeps(durations, world, p, ReadingToRelease(runId, 0));
      }
    case ReadClock(p) => ReadClockKeeps(durations, world, p);
    case ReadLease(p, revision) => ReadKeeps(durations, world, p, revision);
    case Acknowledged(p) => AcknowledgeKeeps(durations, world, p);
    case Conflicted(p) => ConflictKeeps(durations, world, p);
    case Deliver(write) =>
      if write in world.takes || write in world.updates {
        DeliverKeeps(durations, world, write);
      }
    case Fail(p) => SetKeeps(durations, world, p, Ended);
    case Tick(elapsed) =>
      if elapsed >= 0.0 {
        TickKeeps(durations, world, elapsed);
      }
  }

  lemma {:induction false} InvRun(durations: Durations, world: World, steps: seq<Step>)
    requires Inv(durations, world)
    ensures Inv(durations, Run(durations, world, steps))
    decreases |steps|
  {
    if steps != [] {
      InvStep(durations, world, steps[0]);
      InvRun(durations, Apply(durations, world, steps[0]), steps[1..]);
    }
  }

  // ----- Theorems -----

  lemma LandedIsLegal(durations: Durations, world: World, i: nat)
    requires Inv(durations, world) && i < |world.history|
    ensures var write := world.history[i];
            && write.expected == i
            && (LegalTake(durations, world.clock, world.history, write) || LegalUpdate(world.history, write))
  {
    assert LandedAt(world, i);
  }

  /** The stored lease names another run than before only if the lease before had expired at the
      acquirer's clock reading, which is not in the future; a release sets the expiry to 0. */
  lemma LeasePassesOnlyWhenExpired(durations: Durations, clock: real, steps: seq<Step>, i: nat)
    requires var history := Run(durations, Initial(clock), steps).history;
             0 < i < |history| && history[i].value.runId != history[i - 1].value.runId
    ensures var world := Run(durations, Initial(clock), steps);
            var now := world.history[i].value.until - durations(world.history[i].value.runId);
            world.history[i - 1].value.until <= now <= world.clock && !world.history[i].value.released
  {
    InvRun(durations, Initial(clock), steps);
    LandedIsLegal(durations, Run(durations, Initial(clock), steps), i);
  }

  ghost predicate IsLive(lease: Lease, runId: string) {
    lease.runId == runId && !lease.released
  }

  lemma {:induction false} LiveSinceAcquired(durations: Durations, world: World, runId: string, i: nat, j: nat)
    requires Inv(durations, world) && runId in world.acquired && world.acquired[runId] <= i <= j < |world.history|
    requires IsLive(world.history[j].value, runId)
    ensures IsLive(world.history[i].value, runId)
    decreases j
  {
    if i < j {
      assert LandedAt(world, j);
      LiveSinceAcquired(durations, world, runId, i, j - 1);
    }
  }

  /** Once a run has lost its lease after acquiring it, by release or by another run taking over, it
      never has it again: no later record is an unreleased lease of that run. */
  lemma LostForGood(durations: Durations, clock: real, steps: seq<Step>, runId: string, i: nat, j: nat)
    requires var world := Run(durations, Initial(clock), steps);
             && runId in world.acquired && world.acquired[runId] <= i <= j < |world.history|
             && !IsLive(world.history[i].value, runId)
    ensures !IsLive(Run(durations, Initial(clock), steps).history[j].value, runId)
  {
    InvRun(durations, Initial(clock), steps);
    var world := Run(durations, Initial(clock), steps);
    if IsLive(world.history[j].value, runId) {
      LiveSinceAcquired(durations, world, runId, i, j);
    }
  }

  /** A renewal that succeeded proves that its run had held the lease, unreleased, at every revision
      since it acquired it. */
  lemma RenewalMeansHeldThroughout(durations: Durations, clock: real, steps: seq<Step>, p: nat, i: nat)
    requires PhaseOf(Run(durations, Initial(clock), steps), p).HasRenewed?
    requires var world := Run(durations, Initial(clock), steps); var phase := PhaseOf(world, p);
             phase.runId in world.acquired && world.acquired[phase.runId] <= i <= phase.write.expected
    ensures var world := Run(durations, Initial(clock), steps); var phase := PhaseOf(world, p);
            && world.acquired[phase.runId] < phase.write.expected < |world.history|
            && IsLive(world.history[i].value, phase.runId)
  {
    InvRun(durations, Initial(clock), steps);
    var world := Run(durations, Initial(clock), steps);
    var phase := PhaseOf(world, p);
    assert PhaseOk(world, world.phases[p]);
    LandedUpdateIsAfter(durations, world, phase.runId, phase.write);
    LiveSinceAcquired(durations, world, phase.runId, i, phase.write.expected);
  }

  lemma LandedUpdateIsAfter(durations: Durations, world: World, runId: string, write: Write<Lease>)
    requires Inv(durations, world) && runId in world.acquired
    requires write in world.updates && write.value.runId == runId && Landed(world.history, write)
    ensures world.acquired[runId] < write.expected
  {
    assert LandedAt(world, write.expected);
  }

  /** The last record of `runId` is an unreleased lease that has not expired: what the last
      successful acquire or renewal of that run left behind. */
  ghost predicate HoldsAt(world: World, runId: string, i: nat) {
    && i < |world.history|
    && IsLive(world.history[i].value, runId) && world.history[i].value.until > world.clock
    && forall j :: i < j < |world.history| ==> world.history[j].value.runId != runId
  }

  /** A run whose last lease is unreleased and unexpired is the one the key names; so there is at
      most one such run, whatever was replayed, delayed or reported as failed. */
  lemma HolderIsStored(durations: Durations, clock: real, steps: seq<Step>, runId: string, i: nat)
    ensures var world := Run(durations, Initial(clock), steps);
            HoldsAt(world, runId, i) <==>
            i == |world.history| - 1 && IsLive(world.history[i].value, runId)
                && world.history[i].value.until > world.clock
  {
    InvRun(durations, Initial(clock), steps);
    var world := Run(durations, Initial(clock), steps);
    if HoldsAt(world, runId, i) && i + 1 < |world.history| {
      LandedIsLegal(durations, world, i + 1);
    }
  }

  lemma AtMostOneHolder(durations: Durations, clock: real, steps: seq<Step>, r: string, i: nat, s: string, j: nat)
    requires HoldsAt(Run(durations, Initial(clock), steps), r, i)
    requires HoldsAt(Run(durations, Initial(clock), steps), s, j)
    ensures r == s && i == j
  {
    HolderIsStored(durations, clock, steps, r, i);
    HolderIsStored(durations, clock, steps, s, j);
  }
}
