/**
 Any number of concurrent ensureBootstrap calls (src/currencyservice/bootstrap_claim.js:118-139)
 over one claim key and one shared monotone clock.

 Each call is a process of its own; several calls may use the same worker ID. Reads may be stale.
 A write request, once sent, may land at any later time, even after its sender saw an error, or
 never; a sender may be told of a conflict although its own write landed. Any call may fail
 anywhere. A run is a list of steps; a step that is not enabled changes nothing.
 */
module BootstrapRuns {
  import opened Options
  import opened RevisionedStore
  import opened BootstrapClaim

  /** The arguments of a call: its worker ID and, if given, its lease duration. */
  datatype Caller = Caller(owner: string, durationMs: Option<int>) {
    const duration: int := EffectiveDuration(durationMs)
  }

  type Callers = nat -> Caller

  datatype Phase =
    | NotStarted
    | Acquiring(now: int, attempt: nat)
    | SentTake(now: int, attempt: nat, write: Write<Claim>)
    | WaitingForHolder
    | Claimed(claim: Claim)
    | Publishing(claim: Claim)
    | Published(claim: Claim)
    | Completing(claim: Claim, now: int, attempt: nat)
    | SentFinish(claim: Claim, now: int, attempt: nat, write: Write<Claim>)
    | ReturnedComplete
    | ReturnedPublished(claim: Claim)
    | Failed

  /** `started` and `finished` are the tokens under which a publish() was started and finished,
      `publishes` counts the starts. */
  datatype World = World(
    history: seq<Write<Claim>>,
    clock: int,
    sent: set<Write<Claim>>,
    phases: map<nat, Phase>,
    started: set<nat>,
    finished: set<nat>,
    publishes: nat)

  datatype Step =
    | Begin(p: nat)
    | ReadForAcquire(p: nat, revision: nat)
    | Deliver(write: Write<Claim>)
    | TakeAcknowledged(p: nat)
    | TakeConflicted(p: nat)
    | RetryAfterWait(p: nat)
    | StartPublish(p: nat)
    | FinishPublish(p: nat)
    | BeginComplete(p: nat)
    | ReadForComplete(p: nat, revision: nat)
    | FinishAcknowledged(p: nat)
    | FinishConflicted(p: nat)
    | Fail(p: nat)
    | Tick(elapsed: nat)

  function Initial(clock: int): World {
    World([], clock, {}, map[], {}, {}, 0)
  }

  function PhaseOf(world: World, p: nat): Phase {
    if p in world.phases then world.phases[p] else NotStarted
  }

  function Set(world: World, p: nat, phase: Phase): World {
    world.(phases := world.phases[p := phase])
  }

  function Send(world: World, p: nat, write: Write<Claim>, phase: Phase): World {
    Set(world.(sent := world.sent + {write}), p, phase)
  }

  function AcquireRead(callers: Callers, world: World, p: nat, now: int, attempt: nat, revision: nat): World
    requires revision <= |world.history|
  {
    if attempt >= MAX_ATTEMPTS then Set(world, p, Failed)
    else
      match DecideAcquire(ValueAt(world.history, revision), callers(p).owner, now, callers(p).duration)
      case AlreadyComplete => Set(world, p, ReturnedComplete)
      case HeldByOther(_) => Set(world, p, WaitingForHolder)
      case Take(claim) =>
        var write := Write(p, revision, claim);
        Send(world, p, write, SentTake(now, attempt, write))
  }

  function CompleteRead(world: World, p: nat, mine: Claim, now: int, attempt: nat, revision: nat): World
    requires revision <= |world.history|
  {
    if attempt >= MAX_ATTEMPTS then Set(world, p, Failed)
    else
      match DecideComplete(ValueAt(world.history, revision), mine, now)
      case ClaimLost => Set(world, p, Failed)
      case CompletedBefore => Set(world, p, ReturnedPublished(mine))
      case Finish(claim) =>
        var write := Write(p, revision, claim);
        Send(world, p, write, SentFinish(mine, now, attempt, write))
  }

  function Apply(callers: Callers, world: World, step: Step): World {
    match step
    case Begin(p) =>
      if PhaseOf(world, p) != NotStarted then world
      else if callers(p).owner == "" || callers(p).duration <= 0 then Set(world, p, Failed)
      else Set(world, p, Acquiring(world.clock, 0))
    case ReadForAcquire(p, revision) =>
      (match PhaseOf(world, p)
       case Acquiring(now, attempt) =>
         if revision <= |world.history| then AcquireRead(callers, world, p, now, attempt, revision) else world
       case _ => world)
    case Deliver(write) => if write in world.sent then world.(history := Land(world.history, write)) else world
    case TakeAcknowledged(p) =>
      (match PhaseOf(world, p)
       case SentTake(_, _, write) => if Landed(world.history, write) then Set(world, p, Claimed(write.value)) else world
       case _ => world)
    case TakeConflicted(p) =>
      (match PhaseOf(world, p)
       case SentTake(now, attempt, write) =>
         if write.expected < |world.history| then Set(world, p, Acquiring(now, attempt + 1)) else world
       case _ => world)
    case RetryAfterWait(p) =>
      if PhaseOf(world, p) == WaitingForHolder then Set(world, p, Acquiring(world.clock, 0)) else world
    case StartPublish(p) =>
      (match PhaseOf(world, p)
       case Claimed(claim) =>
         Set(world.(started := world.started + {claim.token}, publishes := world.publishes + 1), p, Publishing(claim))
       case _ => world)
    case FinishPublish(p) =>
      (match PhaseOf(world, p)
       case Publishing(claim) => Set(world.(finished := world.finished + {claim.token}), p, Published(claim))
       case _ => world)
    case BeginComplete(p) =>
      (match PhaseOf(world, p)
       case Published(claim) => Set(world, p, Completing(claim, world.clock, 0))
       case _ => world)
    case ReadForComplete(p, revision) =>
      (match PhaseOf(world, p)
       case Completing(claim, now, attempt) =>
         if revision <= |world.history| then CompleteRead(world, p, claim, now, attempt, revision) else world
       case _ => world)
    case FinishAcknowledged(p) =>
      (match PhaseOf(world, p)
       case SentFinish(claim, _, _, write) =>
         if Landed(world.history, write) then Set(world, p, ReturnedPublished(claim)) else world
       case _ => world)
    case FinishConflicted(p) =>
      (match PhaseOf(world, p)
       case SentFinish(claim, now, attempt, write) =>
         if write.expected < |world.history| then Set(world, p, Completing(claim, now, attempt + 1)) else world
       case _ => world)
    case Fail(p) => Set(world, p, Failed)
    case Tick(elapsed) => world.(clock := world.clock + elapsed)
  }

  function Run(callers: Callers, world: World, steps: seq<Step>): World
    decreases |steps|
  {
    if steps == [] then world else Run(callers, Apply(callers, world, steps[0]), steps[1..])
  }

  lemma {:induction false} RunAppend(callers: Callers, world: World, a: seq<Step>, b: seq<Step>)
    ensures Run(callers, world, a + b) == Run(callers, Run(callers, world, a), b)
    decreases |a|
  {
    if a == [] {
      assert a + b == b;
    } else {
      assert (a + b)[1..] == a[1..] + b;
      RunAppend(callers, Apply(callers, world, a[0]), a[1..], b);
    }
  }

  // ----- The chain of records -----

  function AcquiredAt(callers: Callers, write: Write<Claim>): int {
    write.value.leaseUntil - callers(write.writer).duration
  }

  /** A legal write of a claim that was taken: by its own caller, at a clock reading in the past. */
  ghost predicate LegalTake(callers: Callers, clock: int, history: seq<Write<Claim>>, write: Write<Claim>)
    requires write.expected <= |history|
  {
    var caller := callers(write.writer);
    && caller.duration > 0
    && AcquiredAt(callers, write) <= clock
    && IsTake(ValueAt(history, write.expected), write.value, caller.owner, AcquiredAt(callers, write), caller.duration)
  }

  /** A legal completion: by the writer of the record it completes, after that writer's publish()
      had finished. */
  ghost predicate LegalFinish(history: seq<Write<Claim>>, finished: set<nat>, write: Write<Claim>)
    requires write.expected <= |history|
  {
    && write.value.completed
    && write.expected > 0 && write.value.completedAt.Some?
    && IsFinish(ValueAt(history, write.expected), write.value, history[write.expected - 1].value,
        write.value.completedAt.value)
    && history[write.expected - 1].writer == write.writer
    && write.value.token in finished
  }

  ghost predicate Legal(callers: Callers, world: World, write: Write<Claim>) {
    && write.expected <= |world.history|
    && (LegalTake(callers, world.clock, world.history, write) || LegalFinish(world.history, world.finished, write))
  }

  ghost predicate ChainOk(callers: Callers, world: World) {
    && (forall i {:trigger Legal(callers, world, world.history[i])} :: 0 <= i < |world.history| ==>
          world.history[i].expected == i && Legal(callers, world, world.history[i]))
    && (forall write :: write in world.sent ==> Legal(callers, world, write))
  }

  /** Tokens count the takes; only the last record can be a completed one. */
  ghost predicate TokensOk(history: seq<Write<Claim>>) {
    forall i :: 0 <= i < |history| ==>
      if history[i].value.completed then i > 0 && i == |history| - 1 && history[i].value.token == i
      else history[i].value.token == i + 1
  }

  lemma {:induction false} TokenAt(callers: Callers, world: World, i: nat)
    requires ChainOk(callers, world) && i < |world.history|
    ensures var value := world.history[i].value;
            if value.completed then i > 0 && i == |world.history| - 1 && value.token == i else value.token == i + 1
    decreases i
  {
    var write := world.history[i];
    assert Legal(callers, world, write);
    if i > 0 {
      TokenAt(callers, world, i - 1);
    }
    if i + 1 < |world.history| {
      assert Legal(callers, world, world.history[i + 1]);
      assert !write.value.completed;
    }
  }

  lemma TokensFollow(callers: Callers, world: World)
    requires ChainOk(callers, world)
    ensures TokensOk(world.history)
  {
    forall i: nat | i < |world.history| {
      TokenAt(callers, world, i);
    }
  }

  // ----- The calls -----

  ghost predicate Holds(history: seq<Write<Claim>>, p: nat, claim: Claim) {
    && 1 <= claim.token <= |history|
    && !claim.completed
    && history[claim.token - 1] == Write(p, claim.token - 1, claim)
  }

  ghost predicate LastCompleted(history: seq<Write<Claim>>) {
    |history| > 0 && history[|history| - 1].value.completed
  }

  ghost predicate PhaseOk(callers: Callers, world: World, p: nat, phase: Phase) {
    match phase
    case NotStarted => true
    case WaitingForHolder => callers(p).duration > 0
    case Failed => true
    case Acquiring(now, _) => now <= world.clock && callers(p).duration > 0
    case SentTake(now, _, write) =>
      write in world.sent && write.writer == p && !write.value.completed && now <= world.clock
          && callers(p).duration > 0
    case Claimed(claim) => Holds(world.history, p, claim)
    case Publishing(claim) => Holds(world.history, p, claim) && claim.token in world.started
    case Published(claim) => Holds(world.history, p, claim) && claim.token in world.finished
    case Completing(claim, _, _) => Holds(world.history, p, claim) && claim.token in world.finished
    case SentFinish(claim, _, _, write) =>
      Holds(world.history, p, claim) && claim.token in world.finished && write in world.sent && write.value.completed
    case ReturnedComplete => LastCompleted(world.history)
    case ReturnedPublished(claim) =>
      Holds(world.history, p, claim) && claim.token in world.finished && LastCompleted(world.history)
  }

  ghost predicate PastStart(phase: Phase) {
    phase.Publishing? || phase.Published? || phase.Completing? || phase.SentFinish? || phase.ReturnedPublished?
        || phase.Failed?
  }

  ghost predicate StartsOk(world: World) {
    && world.publishes == |world.started|
    && world.finished <= world.started
    && forall t :: t in world.started ==>
         && 1 <= t <= |world.history|
         && !world.history[t - 1].value.completed
         && PastStart(PhaseOf(world, world.history[t - 1].writer))
  }

  ghost predicate Inv(callers: Callers, world: World) {
    && ChainOk(callers, world)
    && (forall p :: p in world.phases ==> PhaseOk(callers, world, p, world.phases[p]))
    && StartsOk(world)
  }

  // ----- Every step keeps the invariant -----

  /** A write stays legal as the key grows and the clock moves on. */
  lemma LegalStays(callers: Callers, world: World, next: World, write: Write<Claim>)
    requires Legal(callers, world, write)
    requires world.history <= next.history && world.clock <= next.clock && world.finished <= next.finished
    ensures Legal(callers, next, write)
  {
    assert ValueAt(next.history, write.expected) == ValueAt(world.history, write.expected);
  }

  /** A step that leaves the key alone, only adds to what was sent, started and finished, and moves
      at most the call `p`. */
  lemma FrameKeeps(callers: Callers, world: World, next: World, p: nat)
    requires Inv(callers, world)
    requires next.history == world.history && world.clock <= next.clock
    requires world.sent <= next.sent && world.started <= next.started && world.finished <= next.finished
    requires forall w :: w in next.sent && w !in world.sent ==> Legal(callers, world, w)
    requires forall q :: q in next.phases && q != p ==> q in world.phases && next.phases[q] == world.phases[q]
    requires PhaseOk(callers, next, p, PhaseOf(next, p))
    requires StartsOk(next)
    ensures Inv(callers, next)
  {
    forall i | 0 <= i < |next.history|
      ensures next.history[i].expected == i && Legal(callers, next, next.history[i])
    {
      assert Legal(callers, world, world.history[i]);
      LegalStays(callers, world, next, world.history[i]);
    }
    forall w | w in next.sent
      ensures Legal(callers, next, w)
    {
      assert Legal(callers, world, w);
      LegalStays(callers, world, next, w);
    }
    forall q | q in next.phases
      ensures PhaseOk(callers, next, q, next.phases[q])
    {
      if q != p {
        assert PhaseOk(callers, world, q, world.phases[q]);
      }
    }
  }

  lemma SendKeeps(callers: Callers, world: World, p: nat, write: Write<Claim>, phase: Phase)
    requires Inv(callers, world) && Legal(callers, world, write)
    requires PhaseOk(callers, Send(world, p, write, phase), p, phase)
    requires !PastStart(PhaseOf(world, p)) || PastStart(phase)
    ensures Inv(callers, Send(world, p, write, phase))
  {
    FrameKeeps(callers, world, Send(world, p, write, phase), p);
  }

  lemma SetKeeps(callers: Callers, world: World, p: nat, phase: Phase)
    requires Inv(callers, world)
    requires PhaseOk(callers, world, p, phase)
    requires !PastStart(PhaseOf(world, p)) || PastStart(phase)
    ensures Inv(callers, Set(world, p, phase))
  {
    FrameKeeps(callers, world, Set(world, p, phase), p);
  }

  lemma DeliverKeeps(callers: Callers, world: World, write: Write<Claim>)
    requires Inv(callers, world) && write in world.sent && write.expected == |world.history|
    ensures Inv(callers, world.(history := Land(world.history, write)))
  {
    var next := world.(history := Land(world.history, write));
    assert Legal(callers, world, write);
    forall i | 0 <= i < |next.history|
      ensures next.history[i].expected == i && Legal(callers, next, next.history[i])
    {
      if i < |world.history| {
        assert Legal(callers, world, world.history[i]);
      }
      LegalStays(callers, world, next, next.history[i]);
    }
    forall w | w in next.sent
      ensures Legal(callers, next, w)
    {
      assert Legal(callers, world, w);
      LegalStays(callers, world, next, w);
    }
    TokensFollow(callers, world);
    TokensFollow(callers, next);
    forall q | q in next.phases
      ensures PhaseOk(callers, next, q, next.phases[q])
    {
      assert PhaseOk(callers, world, q, world.phases[q]);
      assert !LastCompleted(world.history);
    }
  }

  lemma TakeIsLegal(callers: Callers, world: World, p: nat, now: int, revision: nat)
    requires revision <= |world.history| && now <= world.clock && callers(p).duration > 0
    requires DecideAcquire(ValueAt(world.history, revision), callers(p).owner, now, callers(p).duration).Take?
    ensures var claim :=
        DecideAcquire(ValueAt(world.history, revision), callers(p).owner, now, callers(p).duration).claim;
            !claim.completed && LegalTake(callers, world.clock, world.history, Write(p, revision, claim))
  {
    var claim := DecideAcquire(ValueAt(world.history, revision), callers(p).owner, now, callers(p).duration).claim;
    assert AcquiredAt(callers, Write(p, revision, claim)) == now;
  }

  lemma AcquireReadKeeps(callers: Callers, world: World, p: nat, now: int, attempt: nat, revision: nat)
    requires Inv(callers, world) && PhaseOf(world, p) == Acquiring(now, attempt) && revision <= |world.history|
    ensures Inv(callers, AcquireRead(callers, world, p, now, attempt, revision))
  {
    assert PhaseOk(callers, world, p, world.phases[p]);
    var decision := DecideAcquire(ValueAt(world.history, revision), callers(p).owner, now, callers(p).duration);
    if attempt >= MAX_ATTEMPTS {
      SetKeeps(callers, world, p, Failed);
    } else if decision.AlreadyComplete? {
      TokensFollow(callers, world);
      SetKeeps(callers, world, p, ReturnedComplete);
    } else if decision.HeldByOther? {
      SetKeeps(callers, world, p, WaitingForHolder);
    } else {
      TakeIsLegal(callers, world, p, now, revision);
      var write := Write(p, revision, decision.claim);
      assert Legal(callers, world, write);
      SendKeeps(callers, world, p, write, SentTake(now, attempt, write));
    }
  }

  lemma CompleteReadKeeps(callers: Callers, world: World, p: nat, mine: Claim, now: int, attempt: nat, revision: nat)
    requires Inv(callers, world) && PhaseOf(world, p) == Completing(mine, now, attempt) && revision <= |world.history|
    ensures Inv(callers, CompleteRead(world, p, mine, now, attempt, revision))
  {
    assert PhaseOk(callers, world, p, world.phases[p]);
    TokensFollow(callers, world);
    if attempt >= MAX_ATTEMPTS {
      SetKeeps(callers, world, p, Failed);
    } else {
      match DecideComplete(ValueAt(world.history, revision), mine, now)
      case ClaimLost => SetKeeps(callers, world, p, Failed);
      case CompletedBefore => SetKeeps(callers, world, p, ReturnedPublished(mine));
      case Finish(claim) =>
        var write := Write(p, revision, claim);
        assert revision == mine.token;
        assert LegalFinish(world.history, world.finished, write);
        SendKeeps(callers, world, p, write, SentFinish(mine, now, attempt, write));
    }
  }

  lemma TakeAcknowledgedKeeps(callers: Callers, world: World, p: nat)
    requires Inv(callers, world)
    ensures Inv(callers, Apply(callers, world, TakeAcknowledged(p)))
  {
    var phase := PhaseOf(world, p);
    if phase.SentTake? && Landed(world.history, phase.write) {
      assert PhaseOk(callers, world, p, world.phases[p]);
      TokensFollow(callers, world);
      SetKeeps(callers, world, p, Claimed(phase.write.value));
    } else {
      assert Apply(callers, world, TakeAcknowledged(p)) == world;
    }
  }

  lemma FinishAcknowledgedKeeps(callers: Callers, world: World, p: nat)
    requires Inv(callers, world)
    ensures Inv(callers, Apply(callers, world, FinishAcknowledged(p)))
  {
    var phase := PhaseOf(world, p);
    if phase.SentFinish? && Landed(world.history, phase.write) {
      assert PhaseOk(callers, world, p, world.phases[p]);
      TokensFollow(callers, world);
      SetKeeps(callers, world, p, ReturnedPublished(phase.claim));
    } else {
      assert Apply(callers, world, FinishAcknowledged(p)) == world;
    }
  }

  lemma StartIsNew(world: World, p: nat, claim: Claim)
    requires StartsOk(world) && Holds(world.history, p, claim) && PhaseOf(world, p) == Claimed(claim)
    ensures StartsOk(Set(world.(started := world.started + {claim.token}, publishes := world.publishes + 1), p,
        Publishing(claim)))
  {
    var next := Set(world.(started := world.started + {claim.token}, publishes := world.publishes + 1), p,
        Publishing(claim));
    var writer := world.history[claim.token - 1].writer;
    assert writer == p && !PastStart(PhaseOf(world, p));
    assert claim.token !in world.started;
    forall t | t in next.started
      ensures 1 <= t <= |next.history| && !next.history[t - 1].value.completed
          && PastStart(PhaseOf(next, next.history[t - 1].writer))
    {
      assert t in world.started || t == claim.token;
    }
  }

  lemma StartPublishKeeps(callers: Callers, world: World, p: nat)
    requires Inv(callers, world)
    ensures Inv(callers, Apply(callers, world, StartPublish(p)))
  {
    var phase := PhaseOf(world, p);
    if phase.Claimed? {
      assert PhaseOk(callers, world, p, world.phases[p]);
      StartIsNew(world, p, phase.claim);
      FrameKeeps(callers, world, Apply(callers, world, StartPublish(p)), p);
    } else {
      assert Apply(callers, world, StartPublish(p)) == world;
    }
  }

  lemma FinishPublishKeeps(callers: Callers, world: World, p: nat)
    requires Inv(callers, world)
    ensures Inv(callers, Apply(callers, world, FinishPublish(p)))
  {
    var phase := PhaseOf(world, p);
    if phase.Publishing? {
      assert PhaseOk(callers, world, p, phase);
      FrameKeeps(callers, world, Apply(callers, world, FinishPublish(p)), p);
    }
  }

  lemma BeginKeeps(callers: Callers, world: World, p: nat)
    requires Inv(callers, world)
    ensures Inv(callers, Apply(callers, world, Begin(p)))
  {
    if PhaseOf(world, p) == NotStarted {
      SetKeeps(callers, world, p, Failed);
      if callers(p).duration > 0 {
        SetKeeps(callers, world, p, Acquiring(world.clock, 0));
      }
    }
  }

  lemma TakeConflictKeeps(callers: Callers, world: World, p: nat)
    requires Inv(callers, world)
    ensures Inv(callers, Apply(callers, world, TakeConflicted(p)))
  {
    var phase := PhaseOf(world, p);
    if phase.SentTake? && phase.write.expected < |world.history| {
      assert PhaseOk(callers, world, p, world.phases[p]);
      SetKeeps(callers, world, p, Acquiring(phase.now, phase.attempt + 1));
    } else {
      assert Apply(callers, world, TakeConflicted(p)) == world;
    }
  }

  lemma RetryFinishOk(callers: Callers, world: World, p: nat, phase: Phase)
    requires phase.SentFinish? && PhaseOk(callers, world, p, phase)
    ensures PhaseOk(callers, world, p, Completing(phase.claim, phase.now, phase.attempt + 1))
  {
  }

  lemma FinishConflictKeeps(callers: Callers, world: World, p: nat)
    requires Inv(callers, world)
    ensures Inv(callers, Apply(callers, world, FinishConflicted(p)))
  {
    var phase := PhaseOf(world, p);
    if phase.SentFinish? && phase.write.expected < |world.history| {
      assert PhaseOk(callers, world, p, world.phases[p]);
      RetryFinishOk(callers, world, p, phase);
      SetKeeps(callers, world, p, Completing(phase.claim, phase.now, phase.attempt + 1));
    } else {
      assert Apply(callers, world, FinishConflicted(p)) == world;
    }
  }

  lemma ReadClockKeeps(callers: Callers, world: World, p: nat)
    requires Inv(callers, world)
    ensures Inv(callers, Apply(callers, world, RetryAfterWait(p)))
        && Inv(callers, Apply(callers, world, BeginComplete(p)))
  {
    var phase := PhaseOf(world, p);
    assert PhaseOk(callers, world, p, phase);
    if phase.WaitingForHolder? {
      SetKeeps(callers, world, p, Acquiring(world.clock, 0));
    } else if phase.Published? {
      SetKeeps(callers, world, p, Completing(phase.claim, world.clock, 0));
    }
  }

  lemma TickKeeps(callers: Callers, world: World, elapsed: nat)
    requires Inv(callers, world)
    ensures Inv(callers, Apply(callers, world, Tick(elapsed)))
  {
    assert PhaseOk(callers, world, 0, PhaseOf(world, 0));
    FrameKeeps(callers, world, Apply(callers, world, Tick(elapsed)), 0);
  }

  lemma InvStep(callers: Callers, world: World, step: Step)
    requires Inv(callers, world)
    ensures Inv(callers, Apply(callers, world, step))
  {
    match step
    case Begin(p) => BeginKeeps(callers, world, p);
    case ReadForAcquire(p, revision) =>
      var phase := PhaseOf(world, p);
      if phase.Acquiring? && revision <= |world.history| {
        AcquireReadKeeps(callers, world, p, phase.now, phase.attempt, revision);
      }
    case Deliver(write) =>
      if write in world.sent && write.expected == |world.history| {
        DeliverKeeps(callers, world, write);
      }
    case TakeAcknowledged(p) => TakeAcknowledgedKeeps(callers, world, p);
    case TakeConflicted(p) => TakeConflictKeeps(callers, world, p);
    case RetryAfterWait(p) => ReadClockKeeps(callers, world, p);
    case StartPublish(p) => StartPublishKeeps(callers, world, p);
    case FinishPublish(p) => FinishPublishKeeps(callers, world, p);
    case BeginComplete(p) => ReadClockKeeps(callers, world, p);
    case ReadForComplete(p, revision) =>
      var phase := PhaseOf(world, p);
      if phase.Completing? && revision <= |world.history| {
        CompleteReadKeeps(callers, world, p, phase.claim, phase.now, phase.attempt, revision);
      }
    case FinishAcknowledged(p) => FinishAcknowledgedKeeps(callers, world, p);
    case FinishConflicted(p) => FinishConflictKeeps(callers, world, p);
    case Fail(p) => SetKeeps(callers, world, p, Failed);
    case Tick(elapsed) => TickKeeps(callers, world, elapsed);
  }

  lemma {:induction false} InvRun(callers: Callers, world: World, steps: seq<Step>)
    requires Inv(callers, world)
    ensures Inv(callers, Run(callers, world, steps))
    decreases |steps|
  {
    if steps != [] {
      InvStep(callers, world, steps[0]);
      InvRun(callers, Apply(callers, world, steps[0]), steps[1..]);
    }
  }

  lemma Reachable(callers: Callers, clock: int, steps: seq<Step>) returns (world: World)
    ensures world == Run(callers, Initial(clock), steps) && Inv(callers, world) && TokensOk(world.history)
  {
    world := Run(callers, Initial(clock), steps);
    InvRun(callers, Initial(clock), steps);
    TokensFollow(callers, world);
  }

  // ----- Theorems -----

  /** An acquired claim is valid from the clock reading it was taken at until its lease runs out. */
  ghost predicate ValidAt(callers: Callers, write: Write<Claim>, time: int) {
    AcquiredAt(callers, write) <= time < write.value.leaseUntil
  }

  lemma {:induction false} LaterTakesStartLater(callers: Callers, world: World, i: nat, j: nat)
    requires ChainOk(callers, world) && i < j < |world.history| && !world.history[j].value.completed
    ensures world.history[i].value.leaseUntil <= AcquiredAt(callers, world.history[j])
    decreases j
  {
    assert Legal(callers, world, world.history[j]);
    assert world.history[j].expected == j;
    if i < j - 1 {
      assert Legal(callers, world, world.history[j - 1]);
      LaterTakesStartLater(callers, world, i, j - 1);
    }
  }

  lemma ExpiredByThen(callers: Callers, world: World, i: nat, j: nat)
    requires ChainOk(callers, world) && i < j < |world.history| && !world.history[j].value.completed
    ensures world.history[i].value.leaseUntil <= world.clock
  {
    LaterTakesStartLater(callers, world, i, j);
    assert Legal(callers, world, world.history[j]);
  }

  /** Every successful acquire gets a fresh, strictly larger token, and the validity intervals of
      two successful acquires are non-empty and disjoint, although each takes its clock reading
      before up to 32 tries. */
  lemma ClaimsNeverOverlap(callers: Callers, clock: int, steps: seq<Step>, i: nat, j: nat, time: int)
    requires var history := Run(callers, Initial(clock), steps).history;
             i < j < |history| && !history[j].value.completed
    ensures var history := Run(callers, Initial(clock), steps).history;
            && history[i].value.token < history[j].value.token == j + 1
            && AcquiredAt(callers, history[i]) < history[i].value.leaseUntil
            && !(ValidAt(callers, history[i], time) && ValidAt(callers, history[j], time))
  {
    var world := Reachable(callers, clock, steps);
    LaterTakesStartLater(callers, world, i, j);
    assert Legal(callers, world, world.history[i]);
  }

  /** A completion lands only if no later acquire intervened: it directly follows the claim it
      completes, is written by the caller that took that claim, within its lease, and only after
      that caller's publish() had finished. */
  lemma CompletionIsFenced(callers: Callers, clock: int, steps: seq<Step>, i: nat)
    requires i < |Run(callers, Initial(clock), steps).history|
    requires Run(callers, Initial(clock), steps).history[i].value.completed
    ensures var world := Run(callers, Initial(clock), steps);
            && i == |world.history| - 1 && i > 0
            && !world.history[i - 1].value.completed
            && world.history[i - 1].writer == world.history[i].writer
            && world.history[i - 1].value.token == world.history[i].value.token == i
            && world.history[i].value.completedAt.Some?
            && world.history[i].value.completedAt.value < world.history[i - 1].value.leaseUntil
            && i in world.finished
  {
    var world := Reachable(callers, clock, steps);
    assert Legal(callers, world, world.history[i]);
  }

  /** Completed is absorbing: nothing lands on the key any more. */
  lemma CompletedIsAbsorbing(callers: Callers, clock: int, steps: seq<Step>, more: seq<Step>)
    requires LastCompleted(Run(callers, Initial(clock), steps).history)
    ensures Run(callers, Initial(clock), steps + more).history == Run(callers, Initial(clock), steps).history
  {
    var world := Reachable(callers, clock, steps);
    var later := Reachable(callers, clock, steps + more);
    RunAppend(callers, Initial(clock), steps, more);
    HistoryGrows(callers, world, more);
    assert later.history[|world.history| - 1] == world.history[|world.history| - 1];
  }

  lemma {:induction false} HistoryGrows(callers: Callers, world: World, steps: seq<Step>)
    ensures world.history <= Run(callers, world, steps).history
    decreases |steps|
  {
    if steps != [] {
      HistoryGrows(callers, Apply(callers, world, steps[0]), steps[1..]);
    }
  }

  /** A call of ensureBootstrap that returns normally, whichever way and on whichever worker, leaves
      the record completed, and the publish() under the completed token had finished. */
  lemma ReturnMeansPublished(callers: Callers, clock: int, steps: seq<Step>, p: nat)
    requires var phase := PhaseOf(Run(callers, Initial(clock), steps), p);
             phase.ReturnedComplete? || phase.ReturnedPublished?
    ensures var world := Run(callers, Initial(clock), steps);
            LastCompleted(world.history) && world.history[|world.history| - 1].value.token in world.finished
  {
    var world := Reachable(callers, clock, steps);
    assert PhaseOk(callers, world, p, world.phases[p]);
    CompletionIsFenced(callers, clock, steps, |world.history| - 1);
  }

  /** The stored token, 0 while the key is absent. */
  function StoredToken(history: seq<Write<Claim>>): nat {
    if history == [] then 0 else history[|history| - 1].value.token
  }

  lemma {:induction false} BoundedSet(s: set<nat>, n: nat)
    requires forall t :: t in s ==> 1 <= t <= n
    ensures |s| <= n
    decreases n
  {
    if n == 0 {
      assert s == {};
    } else {
      BoundedSet(s - {n}, n - 1);
    }
  }

  /** The number of publishes ever started never exceeds the stored token. */
  lemma PublishesAreBounded(callers: Callers, clock: int, steps: seq<Step>)
    ensures var world := Run(callers, Initial(clock), steps);
            world.publishes <= StoredToken(world.history)
  {
    var world := Reachable(callers, clock, steps);
    forall t | t in world.started
      ensures 1 <= t <= StoredToken(world.history)
    {
      assert !world.history[t - 1].value.completed;
    }
    BoundedSet(world.started, StoredToken(world.history));
  }

  /** At most one call at a time is publishing under a lease that has not run out. */
  lemma OneUnexpiredPublisher(callers: Callers, clock: int, steps: seq<Step>, p: nat, q: nat)
    requires var world := Run(callers, Initial(clock), steps);
             && PhaseOf(world, p).Publishing? && PhaseOf(world, p).claim.leaseUntil > world.clock
             && PhaseOf(world, q).Publishing? && PhaseOf(world, q).claim.leaseUntil > world.clock
    ensures p == q
  {
    var world := Reachable(callers, clock, steps);
    assert PhaseOk(callers, world, p, world.phases[p]) && PhaseOk(callers, world, q, world.phases[q]);
    var i, j := world.phases[p].claim.token - 1, world.phases[q].claim.token - 1;
    if i < j {
      ExpiredByThen(callers, world, i, j);
    } else if j < i {
      ExpiredByThen(callers, world, j, i);
    }
  }

  lemma RunSnoc(callers: Callers, world: World, steps: seq<Step>, step: Step)
    ensures Run(callers, world, steps + [step]) == Apply(callers, Run(callers, world, steps), step)
  {
    RunAppend(callers, world, steps, [step]);
    assert [step][1..] == [];
  }

  /** From a world whose key a call can take over, that call gets as far as publishing. */
  lemma TakeAndPublish(callers: Callers, world: World, p: nat) returns (steps: seq<Step>)
    requires PhaseOf(world, p) == NotStarted && callers(p).owner != "" && callers(p).duration > 0
    requires DecideAcquire(ValueAt(world.history, |world.history|), callers(p).owner, world.clock,
        callers(p).duration).Take?
    ensures var claim := DecideAcquire(ValueAt(world.history, |world.history|), callers(p).owner, world.clock,
        callers(p).duration).claim;
            var next := Run(callers, world, steps);
            && next.history == world.history + [Write(p, |world.history|, claim)]
            && next.phases == world.phases[p := Publishing(claim)]
            && next.clock == world.clock
    ensures forall step :: step in steps ==> !step.Tick?
  {
    var n := |world.history|;
    var claim := DecideAcquire(ValueAt(world.history, n), callers(p).owner, world.clock, callers(p).duration).claim;
    var write := Write(p, n, claim);
    var w1 := Set(world, p, Acquiring(world.clock, 0));
    var w2 := Send(w1, p, write, SentTake(world.clock, 0, write));
    var w3 := w2.(history := world.history + [write]);
    var w4 := Set(w3, p, Claimed(claim));
    assert Apply(callers, world, Begin(p)) == w1;
    assert Apply(callers, w1, ReadForAcquire(p, n)) == w2;
    assert Apply(callers, w2, Deliver(write)) == w3;
    assert Apply(callers, w3, TakeAcknowledged(p)) == w4;
    var w5 := Apply(callers, w4, StartPublish(p));
    steps := [];
    RunSnoc(callers, world, steps, Begin(p));
    steps := steps + [Begin(p)];
    RunSnoc(callers, world, steps, ReadForAcquire(p, n));
    steps := steps + [ReadForAcquire(p, n)];
    RunSnoc(callers, world, steps, Deliver(write));
    steps := steps + [Deliver(write)];
    RunSnoc(callers, world, steps, TakeAcknowledged(p));
    steps := steps + [TakeAcknowledged(p)];
    RunSnoc(callers, world, steps, StartPublish(p));
    steps := steps + [StartPublish(p)];
    assert Run(callers, world, steps) == w5;
    assert w5.phases == world.phases[p := Publishing(claim)];
  }

  /** Publishing itself is not fenced: from every reachable world in which a call publishes under the
      stored claim after its lease has run out, any other call that has not begun can come to publish
      beside it, without time passing. With OneUnexpiredPublisher: a call may be joined by another
      exactly because its lease has run out. */
  lemma ExpiredPublisherMayOverlap(callers: Callers, clock: int, steps: seq<Step>, p: nat, q: nat)
    returns (more: seq<Step>)
    requires var world := Run(callers, Initial(clock), steps);
             && PhaseOf(world, p).Publishing? && PhaseOf(world, p).claim.token == |world.history|
             && PhaseOf(world, p).claim.leaseUntil <= world.clock
             && PhaseOf(world, q) == NotStarted && callers(q).owner != "" && callers(q).duration > 0
    ensures var world := Run(callers, Initial(clock), steps);
            var later := Run(callers, Initial(clock), steps + more);
            && later.clock == world.clock && (forall step :: step in more ==> !step.Tick?)
            && PhaseOf(later, p) == PhaseOf(world, p) && PhaseOf(later, p).claim.leaseUntil <= later.clock
            && PhaseOf(later, q).Publishing? && PhaseOf(later, q).claim.leaseUntil > later.clock
  {
    var world := Reachable(callers, clock, steps);
    StoredIsExpired(callers, world, p, callers(q).owner, callers(q).duration);
    more := TakeAndPublish(callers, world, q);
    RunAppend(callers, Initial(clock), steps, more);
  }

  /** The record of a publisher that holds the stored, expired claim can be taken over. */
  lemma StoredIsExpired(callers: Callers, world: World, p: nat, owner: string, duration: int)
    requires Inv(callers, world)
    requires PhaseOf(world, p).Publishing? && PhaseOf(world, p).claim.token == |world.history|
    requires PhaseOf(world, p).claim.leaseUntil <= world.clock
    ensures var decision := DecideAcquire(ValueAt(world.history, |world.history|), owner, world.clock, duration);
            decision.Take? && decision.claim.leaseUntil == world.clock + duration
  {
    assert PhaseOk(callers, world, p, world.phases[p]);
  }

  /** Such a world is reached: a call takes the claim, publishes, and its lease runs out. */
  lemma OverlapHappens() returns (callers: Callers, steps: seq<Step>)
    ensures var world := Run(callers, Initial(0), steps);
            && PhaseOf(world, 0).Publishing? && PhaseOf(world, 0).claim.leaseUntil <= world.clock
            && PhaseOf(world, 1).Publishing? && PhaseOf(world, 1).claim.leaseUntil > world.clock
  {
    callers := (p: nat) => Caller("w", Some(10));
    var a := TakeAndPublish(callers, Initial(0), 0);
    RunSnoc(callers, Initial(0), a, Tick(10));
    var more := ExpiredPublisherMayOverlap(callers, 0, a + [Tick(10)], 0, 1);
    steps := a + [Tick(10)] + more;
  }
}
