/**
 Any number of handler replicas sharing one journal and one publisher, interleaved at the
 granularity of the locks: load, read the version, try to commit, publish one result. Inputs are
 redelivered at will, to any replica; conflicts and publish timeouts are injected at will; a
 replica may stop anywhere.

 A run is a list of steps. A step that is not enabled leaves the world as it is, so the theorems
 about `Run(params, steps)` for every `steps` are about every interleaving.
 */
module JournalRuns {
  import opened ResultJournal

  /** Replicas share the result factory; each may have its own retry limit. */
  datatype Params = Params(factory: Factory, maxConflictRetries: nat -> int)

  datatype Worker =
    | Idle
    | Loading(id: string)
    | ReadingVersion(id: string, attempt: nat)
    | Committing(id: string, attempt: nat, expected: nat)
    | Publishing(commit: Commit, next: nat)
    | Returned(commit: Commit)
    | Raised

  /** What took the journal from one version to the next; a commit knows the version that its worker
      had read for it. */
  datatype Event = CommitOf(id: string, read: nat) | ConflictWrite

  datatype World = World(
    journal: JournalState,
    publisher: PublisherState,
    workers: map<nat, Worker>,
    events: seq<Event>)

  datatype Step =
    | Deliver(w: nat, id: string)
    | LoadInput(w: nat)
    | ReadVersion(w: nat)
    | AttemptCommit(w: nat)
    | PublishNext(w: nat)
    | Crash(w: nat)
    | InjectConflicts(count: int)
    | InjectTimeouts(count: int)

  const INITIAL := World(EMPTY_JOURNAL, EMPTY_PUBLISHER, map[], [])

  function WorkerOf(world: World, w: nat): Worker {
    if w in world.workers then world.workers[w] else Idle
  }

  function Set(world: World, w: nat, worker: Worker): World {
    world.(workers := world.workers[w := worker])
  }

  function StartAttempt(params: Params, w: nat, id: string, attempt: nat): Worker {
    if attempt <= params.maxConflictRetries(w) then ReadingVersion(id, attempt) else Raised
  }

  function CommitAttempt(params: Params, world: World, w: nat, id: string, attempt: nat, expected: nat): World {
    var (journal, reply) := CommitStep(world.journal, id, expected, params.factory);
    var events :=
      if journal.version == world.journal.version then world.events
      else world.events + [if reply.Committed? then CommitOf(id, expected) else ConflictWrite];
    var worker := if reply.Committed? then Publishing(reply.commit, 0) else StartAttempt(params, w, id, attempt + 1);
    Set(world.(journal := journal, events := events), w, worker)
  }

  function PublishResult(world: World, w: nat, commit: Commit, next: nat): World
    requires next < |commit.results|
  {
    var (publisher, timedOut) := PublishStep(world.publisher, commit.results[next]);
    Set(world.(publisher := publisher), w, if timedOut then Raised else Publishing(commit, next + 1))
  }

  function Apply(params: Params, world: World, step: Step): World {
    match step
    case Deliver(w, id) =>
      var worker := WorkerOf(world, w);
      if worker.Idle? || worker.Returned? || worker.Raised? then Set(world, w, Loading(id)) else world
    case LoadInput(w) =>
      (match WorkerOf(world, w)
       case Loading(id) =>
         Set(world, w,
             if id in world.journal.commits then Publishing(world.journal.commits[id], 0)
             else StartAttempt(params, w, id, 0))
       case _ => world)
    case ReadVersion(w) =>
      (match WorkerOf(world, w)
       case ReadingVersion(id, attempt) => Set(world, w, Committing(id, attempt, world.journal.version))
       case _ => world)
    case AttemptCommit(w) =>
      (match WorkerOf(world, w)
       case Committing(id, attempt, expected) => CommitAttempt(params, world, w, id, attempt, expected)
       case _ => world)
    case PublishNext(w) =>
      (match WorkerOf(world, w)
       case Publishing(commit, next) =>
         if next < |commit.results| then PublishResult(world, w, commit, next)
         else Set(world, w, Returned(commit))
       case _ => world)
    case Crash(w) => Set(world, w, Raised)
    case InjectConflicts(count) => world.(journal := world.journal.(conflicts := count))
    case InjectTimeouts(count) => world.(publisher := world.publisher.(timeouts := count))
  }

  function Run(params: Params, world: World, steps: seq<Step>): World
    decreases |steps|
  {
    if steps == [] then world else Run(params, Apply(params, world, steps[0]), steps[1..])
  }

  lemma {:induction false} RunAppend(params: Params, world: World, a: seq<Step>, b: seq<Step>)
    ensures Run(params, world, a + b) == Run(params, Run(params, world, a), b)
    decreases |a|
  {
    if a == [] {
      assert a + b == b;
    } else {
      assert (a + b)[1..] == a[1..] + b;
      RunAppend(params, Apply(params, world, a[0]), a[1..], b);
    }
  }

  // ----- The sequential reference: one event at a time, nobody else around -----

  function Sequential(factory: Factory, events: seq<Event>): (commits: map<string, Commit>)
    decreases |events|
  {
    if events == [] then map[]
    else
      var before := Sequential(factory, events[..|events| - 1]);
      match events[|events| - 1]
      case CommitOf(id, _) => before[id := MakeCommit(factory, id, |events|)]
      case ConflictWrite => before
  }

  ghost predicate Commits(events: seq<Event>, id: string) {
    exists i :: 0 <= i < |events| && events[i].CommitOf? && events[i].id == id
  }

  ghost predicate DistinctInputs(events: seq<Event>) {
    forall i, j :: 0 <= i < j < |events| && events[i].CommitOf? && events[j].CommitOf? ==> events[i].id != events[j].id
  }

  /** In the sequential run an input commits at the position of its event, once. */
  lemma {:induction false} SequentialCommits(factory: Factory, events: seq<Event>)
    requires DistinctInputs(events)
    ensures forall i :: 0 <= i < |events| && events[i].CommitOf? ==>
              events[i].id in Sequential(factory, events)
              && Sequential(factory, events)[events[i].id] == MakeCommit(factory, events[i].id, i + 1)
    ensures forall id :: id in Sequential(factory, events) ==> Commits(events, id)
    decreases |events|
  {
    if events != [] {
      var before := events[..|events| - 1];
      SequentialCommits(factory, before);
      assert forall i :: 0 <= i < |before| ==> events[i] == before[i];
    }
  }

  function ConflictWrites(events: seq<Event>): (n: nat)
    decreases |events|
  {
    if events == [] then 0
    else ConflictWrites(events[..|events| - 1]) + if events[|events| - 1].ConflictWrite? then 1 else 0
  }

  lemma {:induction false} SequentialCount(factory: Factory, events: seq<Event>)
    requires DistinctInputs(events)
    ensures |events| == |Sequential(factory, events)| + ConflictWrites(events)
    decreases |events|
  {
    if events != [] {
      var before := events[..|events| - 1];
      assert forall i :: 0 <= i < |before| ==> events[i] == before[i];
      SequentialCount(factory, before);
      SequentialCommits(factory, before);
      var last := events[|events| - 1];
      if last.CommitOf? {
        assert !Commits(before, last.id);
      }
    }
  }

  // ----- Invariant -----

  ghost predicate Journaled(params: Params, world: World, commit: Commit) {
    commit.inputId in world.journal.commits && world.journal.commits[commit.inputId] == commit
  }

  ghost predicate WorkerOk(params: Params, world: World, worker: Worker) {
    match worker
    case Publishing(commit, next) =>
      && Journaled(params, world, commit)
      && next <= |commit.results|
      && forall k :: 0 <= k < next ==> commit.results[k].messageId in world.publisher.accepted
    case Returned(commit) =>
      && Journaled(params, world, commit)
      && forall k :: 0 <= k < |commit.results| ==> commit.results[k].messageId in world.publisher.accepted
    case _ => true
  }

  /** No worker makes more tries than its retry limit allows. */
  ghost predicate TriesOk(params: Params, world: World) {
    forall w :: w in world.workers ==>
      match world.workers[w]
      case ReadingVersion(_, attempt) => attempt <= params.maxConflictRetries(w)
      case Committing(_, attempt, _) => attempt <= params.maxConflictRetries(w)
      case _ => true
  }

  ghost predicate IsJournaledResult(commits: map<string, Commit>, result: StoredResult) {
    exists id :: id in commits && result in commits[id].results
  }

  ghost predicate JournalOk(params: Params, world: World) {
    && world.journal.version == |world.events|
    && world.journal.commits == Sequential(params.factory, world.events)
    && DistinctInputs(world.events)
    && ReadsAreCurrent(world.events)
  }

  /** Each commit was made at the version its worker had read. */
  ghost predicate ReadsAreCurrent(events: seq<Event>) {
    forall i :: 0 <= i < |events| && events[i].CommitOf? ==> events[i].read == i
  }

  ghost predicate PublisherOk(world: World) {
    && (forall m :: m in world.publisher.accepted ==>
          world.publisher.accepted[m].messageId == m
          && IsJournaledResult(world.journal.commits, world.publisher.accepted[m]))
    && (forall r :: r in world.publisher.attempts ==> IsJournaledResult(world.journal.commits, r))
  }

  ghost predicate Inv(params: Params, world: World) {
    && JournalOk(params, world)
    && PublisherOk(world)
    && (forall w :: w in world.workers ==> WorkerOk(params, world, world.workers[w]))
  }

  ghost predicate Extends(world: World, later: World) {
    && (forall id :: id in world.journal.commits ==>
          id in later.journal.commits && later.journal.commits[id] == world.journal.commits[id])
    && (forall m :: m in world.publisher.accepted ==>
          m in later.publisher.accepted && later.publisher.accepted[m] == world.publisher.accepted[m])
    && world.events <= later.events
  }

  lemma InvStep(params: Params, world: World, step: Step)
    requires Inv(params, world)
    ensures Inv(params, Apply(params, world, step)) && Extends(world, Apply(params, world, step))
  {
    match step
    case AttemptCommit(w) =>
      var worker := WorkerOf(world, w);
      if worker.Committing? {
        CommitKeepsInv(params, world, w, worker.id, worker.attempt, worker.expected);
      }
    case PublishNext(w) =>
      var worker := WorkerOf(world, w);
      if worker.Publishing? && worker.next < |worker.commit.results| {
        PublishKeepsInv(params, world, w, worker.commit, worker.next);
      }
    case LoadInput(w) => SequentialCommits(params.factory, world.events);
    case _ =>
  }

  lemma CommitKeepsJournal(params: Params, world: World, w: nat, id: string, attempt: nat, expected: nat)
    requires JournalOk(params, world)
    ensures var next := CommitAttempt(params, world, w, id, attempt, expected);
            && JournalOk(params, next)
            && world.events <= next.events
            && next.publisher == world.publisher
            && (forall i :: i in world.journal.commits ==>
                  i in next.journal.commits && next.journal.commits[i] == world.journal.commits[i])
  {
    var next := CommitAttempt(params, world, w, id, attempt, expected);
    SequentialCommits(params.factory, world.events);
    if next.events != world.events {
      assert next.events[..|next.events| - 1] == world.events;
      if id !in world.journal.commits {
        assert !Commits(world.events, id);
      }
    }
  }

  lemma CommitMovesWorker(params: Params, world: World, w: nat, id: string, attempt: nat, expected: nat)
    requires JournalOk(params, world)
    ensures var next := CommitAttempt(params, world, w, id, attempt, expected);
            WorkerOk(params, next, WorkerOf(next, w))
            && forall v :: v in next.workers && v != w ==> v in world.workers && next.workers[v] == world.workers[v]
  {
    SequentialCommits(params.factory, world.events);
  }

  lemma CommitKeepsInv(params: Params, world: World, w: nat, id: string, attempt: nat, expected: nat)
    requires Inv(params, world)
    ensures var next := CommitAttempt(params, world, w, id, attempt, expected);
            Inv(params, next) && Extends(world, next)
  {
    var next := CommitAttempt(params, world, w, id, attempt, expected);
    CommitKeepsJournal(params, world, w, id, attempt, expected);
    CommitMovesWorker(params, world, w, id, attempt, expected);
    forall r | IsJournaledResult(world.journal.commits, r)
      ensures IsJournaledResult(next.journal.commits, r)
    {
      var i :| i in world.journal.commits && r in world.journal.commits[i].results;
      assert i in next.journal.commits && r in next.journal.commits[i].results;
    }
    forall v | v in next.workers
      ensures WorkerOk(params, next, next.workers[v])
    {
      if v != w {
        assert WorkerOk(params, world, world.workers[v]);
      }
    }
  }

  lemma PublishKeepsPublisher(world: World, w: nat, commit: Commit, next: nat)
    requires PublisherOk(world) && next < |commit.results|
        && IsJournaledResult(world.journal.commits, commit.results[next])
    ensures var after := PublishResult(world, w, commit, next);
            && PublisherOk(after)
            && after.journal == world.journal && after.events == world.events
            && commit.results[next].messageId in after.publisher.accepted
            && (forall m :: m in world.publisher.accepted ==>
                  m in after.publisher.accepted && after.publisher.accepted[m] == world.publisher.accepted[m])
  {
  }

  lemma PublishMovesWorker(world: World, w: nat, commit: Commit, next: nat)
    requires next < |commit.results|
    ensures var after := PublishResult(world, w, commit, next);
            && (WorkerOf(after, w).Raised? || WorkerOf(after, w) == Publishing(commit, next + 1))
            && forall v :: v in after.workers && v != w ==> v in world.workers && after.workers[v] == world.workers[v]
  {
  }

  lemma WorkerStaysOk(params: Params, world: World, after: World, worker: Worker)
    requires WorkerOk(params, world, worker) && after.journal == world.journal && after.events == world.events
    requires forall m :: m in world.publisher.accepted ==> m in after.publisher.accepted
    ensures WorkerOk(params, after, worker)
  {
  }

  lemma PublishKeepsInv(params: Params, world: World, w: nat, commit: Commit, next: nat)
    requires Inv(params, world) && WorkerOf(world, w) == Publishing(commit, next) && next < |commit.results|
    ensures var after := PublishResult(world, w, commit, next);
            Inv(params, after) && Extends(world, after)
  {
    var after := PublishResult(world, w, commit, next);
    assert WorkerOk(params, world, world.workers[w]);
    assert commit.results[next] in world.journal.commits[commit.inputId].results;
    PublishKeepsPublisher(world, w, commit, next);
    PublishMovesWorker(world, w, commit, next);
    forall v | v in after.workers
      ensures WorkerOk(params, after, after.workers[v])
    {
      WorkerStaysOk(params, world, after, Publishing(commit, next));
      if v != w {
        assert WorkerOk(params, world, world.workers[v]);
        WorkerStaysOk(params, world, after, world.workers[v]);
      }
    }
  }

  lemma {:induction false} InvRun(params: Params, world: World, steps: seq<Step>)
    requires Inv(params, world)
    ensures Inv(params, Run(params, world, steps)) && Extends(world, Run(params, world, steps))
    decreases |steps|
  {
    if steps != [] {
      InvStep(params, world, steps[0]);
      InvRun(params, Apply(params, world, steps[0]), steps[1..]);
    }
  }

  lemma InitialOk(params: Params)
    ensures Inv(params, INITIAL)
  {
  }

  // ----- Theorems -----

  /** Every interleaving leaves the journal in the state of a sequential execution of distinct
      inputs: the commits and their versions are those of `events`, taken one at a time. */
  lemma JournalIsSequential(params: Params, steps: seq<Step>)
    ensures var world := Run(params, INITIAL, steps);
            && DistinctInputs(world.events)
            && world.journal.commits == Sequential(params.factory, world.events)
            && world.journal.version == |world.events| == |world.journal.commits| + ConflictWrites(world.events)
  {
    InvRun(params, INITIAL, steps);
    SequentialCount(params.factory, Run(params, INITIAL, steps).events);
  }

  /** Each stored commit is what the factory builds at its version, for its own input, and no two
      inputs share a version. */
  lemma CommitsAreExactAndDistinct(params: Params, steps: seq<Step>)
    ensures var journal := Run(params, INITIAL, steps).journal;
            && (forall id :: id in journal.commits ==>
                  journal.commits[id] == MakeCommit(params.factory, id, journal.commits[id].version)
                  && 1 <= journal.commits[id].version <= journal.version)
            && (forall a, b :: a in journal.commits && b in journal.commits && a != b ==>
                  journal.commits[a].version != journal.commits[b].version)
  {
    InvRun(params, INITIAL, steps);
    var world := Run(params, INITIAL, steps);
    SequentialCommits(params.factory, world.events);
    forall id | id in world.journal.commits
      ensures exists i :: 0 <= i < |world.events| && world.events[i].CommitOf? && world.events[i].id == id
                          && world.journal.commits[id] == MakeCommit(params.factory, id, i + 1)
    {
      var i :| 0 <= i < |world.events| && world.events[i].CommitOf? && world.events[i].id == id;
    }
  }

  lemma RunSnoc(params: Params, steps: seq<Step>, n: nat)
    requires n < |steps|
    ensures Run(params, INITIAL, steps[..n + 1]) == Apply(params, Run(params, INITIAL, steps[..n]), steps[n])
  {
    assert steps[..n + 1] == steps[..n] + [steps[n]];
    RunAppend(params, INITIAL, steps[..n], [steps[n]]);
    assert [steps[n]][1..] == [];
  }

  /** A worker about to commit read the version it expects, at a step of this run. */
  lemma {:induction false} ExpectedWasRead(params: Params, steps: seq<Step>, n: nat, w: nat) returns (t: nat)
    requires n <= |steps| && WorkerOf(Run(params, INITIAL, steps[..n]), w).Committing?
    ensures t < n && steps[t] == ReadVersion(w)
    ensures Run(params, INITIAL, steps[..t]).journal.version == WorkerOf(Run(params, INITIAL, steps[..n]), w).expected
    decreases n
  {
    assert n > 0;
    RunSnoc(params, steps, n - 1);
    var before := Run(params, INITIAL, steps[..n - 1]);
    if steps[n - 1] == ReadVersion(w) && WorkerOf(before, w).ReadingVersion? {
      t := n - 1;
    } else {
      StaysCommitting(params, before, steps[n - 1], w);
      t := ExpectedWasRead(params, steps, n - 1, w);
    }
  }

  lemma StaysCommitting(params: Params, world: World, step: Step, w: nat)
    requires WorkerOf(Apply(params, world, step), w).Committing?
    requires !(step == ReadVersion(w) && WorkerOf(world, w).ReadingVersion?)
    ensures WorkerOf(Apply(params, world, step), w) == WorkerOf(world, w)
  {
  }

  /** Between two points of a run events are only added, and the version counts them. */
  lemma EventsBetween(params: Params, steps: seq<Step>, m: nat, n: nat)
    requires m <= n <= |steps|
    ensures var a, b := Run(params, INITIAL, steps[..m]), Run(params, INITIAL, steps[..n]);
            && a.events <= b.events && a.journal.version == |a.events| && b.journal.version == |b.events|
            && a.journal.commits == Sequential(params.factory, a.events)
            && b.journal.commits == Sequential(params.factory, b.events)
  {
    assert steps[..n] == steps[..m] + steps[m..n];
    RunAppend(params, INITIAL, steps[..m], steps[m..n]);
    InvRun(params, INITIAL, steps[..m]);
    InvRun(params, Run(params, INITIAL, steps[..m]), steps[m..n]);
  }

  /** A step commits a new input. */
  ghost predicate CommitsAt(params: Params, steps: seq<Step>, n: nat, w: nat, id: string)
    requires n < |steps|
  {
    && steps[n] == AttemptCommit(w)
    && id !in Run(params, INITIAL, steps[..n]).journal.commits
    && id in Run(params, INITIAL, steps[..n + 1]).journal.commits
  }

  /** Optimistic concurrency: a commit that lands directly follows the read that led to it. Its
      worker read the version at some step, and from there up to the commit nobody changed the
      journal's version or its commits. */
  lemma CommitFollowsItsRead(params: Params, steps: seq<Step>, n: nat, w: nat, id: string) returns (t: nat)
    requires n < |steps| && CommitsAt(params, steps, n, w, id)
    ensures t < n && steps[t] == ReadVersion(w)
    ensures forall m :: t <= m <= n ==>
              && Run(params, INITIAL, steps[..m]).journal.version == Run(params, INITIAL, steps[..n]).journal.version
              && Run(params, INITIAL, steps[..m]).journal.commits == Run(params, INITIAL, steps[..n]).journal.commits
  {
    var world := Run(params, INITIAL, steps[..n]);
    RunSnoc(params, steps, n);
    assert WorkerOf(world, w).Committing?;
    t := ExpectedWasRead(params, steps, n, w);
    EventsBetween(params, steps, n, n + 1);
    CommitWasCurrent(params, steps, n, w, id);
    forall m | t <= m <= n
      ensures Run(params, INITIAL, steps[..m]).journal.version == world.journal.version
      ensures Run(params, INITIAL, steps[..m]).journal.commits == world.journal.commits
    {
      EventsBetween(params, steps, t, m);
      EventsBetween(params, steps, m, n);
      assert Run(params, INITIAL, steps[..m]).events == world.events;
    }
  }

  /** The version the worker expects is still the journal's when its commit lands. */
  lemma CommitWasCurrent(params: Params, steps: seq<Step>, n: nat, w: nat, id: string)
    requires n < |steps| && CommitsAt(params, steps, n, w, id)
    ensures var world := Run(params, INITIAL, steps[..n]);
            WorkerOf(world, w).Committing? && WorkerOf(world, w).expected == world.journal.version
  {
    RunSnoc(params, steps, n);
    InvRun(params, INITIAL, steps[..n + 1]);
    InvRun(params, INITIAL, steps[..n]);
    var world, next := Run(params, INITIAL, steps[..n]), Run(params, INITIAL, steps[..n + 1]);
    var last := |next.events| - 1;
    assert next.events[last].CommitOf? ==> next.events[last].read == last;
  }

  /** No worker tries a commit more often than its retry limit allows. */
  lemma TriesAreBounded(params: Params, steps: seq<Step>, w: nat)
    requires WorkerOf(Run(params, INITIAL, steps), w).Committing?
    ensures WorkerOf(Run(params, INITIAL, steps), w).attempt <= params.maxConflictRetries(w)
  {
    TriesRun(params, INITIAL, steps);
  }

  lemma {:induction false} TriesRun(params: Params, world: World, steps: seq<Step>)
    requires TriesOk(params, world)
    ensures TriesOk(params, Run(params, world, steps))
    decreases |steps|
  {
    if steps != [] {
      TriesStep(params, world, steps[0]);
      TriesRun(params, Apply(params, world, steps[0]), steps[1..]);
    }
  }

  lemma TriesStep(params: Params, world: World, step: Step)
    requires TriesOk(params, world)
    ensures TriesOk(params, Apply(params, world, step))
  {
  }

  /** An input commits at most once and its stored commit never changes; an accepted publication
      never changes either. */
  lemma NothingStoredChanges(params: Params, steps: seq<Step>, more: seq<Step>)
    ensures Extends(Run(params, INITIAL, steps), Run(params, INITIAL, steps + more))
  {
    InvRun(params, INITIAL, steps);
    InvRun(params, Run(params, INITIAL, steps), more);
    RunAppend(params, INITIAL, steps, more);
  }

  /** Whatever was attempted or accepted is a result of a stored commit. */
  lemma OnlyJournaledResultsArePublished(params: Params, steps: seq<Step>)
    ensures var world := Run(params, INITIAL, steps);
            && (forall r :: r in world.publisher.attempts ==> IsJournaledResult(world.journal.commits, r))
            && (forall m :: m in world.publisher.accepted ==>
                  world.publisher.accepted[m].messageId == m
                  && IsJournaledResult(world.journal.commits, world.publisher.accepted[m]))
  {
    InvRun(params, INITIAL, steps);
  }

  /** No two different results stored in the journal carry the same message ID. */
  ghost predicate IdsAreInjective(commits: map<string, Commit>) {
    forall r, s :: IsJournaledResult(commits, r) && IsJournaledResult(commits, s) && r.messageId == s.messageId ==>
        r == s
  }

  /** With injective IDs, the accepted publication of every stored result that was ever attempted
      is that result byte for byte, no matter which replica or redelivery published it; and a
      handler that returned normally has all results of its commit accepted. */
  lemma AcceptedPublicationsAreExact(params: Params, steps: seq<Step>)
    requires IdsAreInjective(Run(params, INITIAL, steps).journal.commits)
    ensures var world := Run(params, INITIAL, steps);
            && (forall r :: IsJournaledResult(world.journal.commits, r) && r.messageId in world.publisher.accepted ==>
                  world.publisher.accepted[r.messageId] == r)
            && (forall w, k ::
                  w in world.workers && world.workers[w].Returned? && 0 <= k < |world.workers[w].commit.results| ==>
                  var r := world.workers[w].commit.results[k];
                  r.messageId in world.publisher.accepted && world.publisher.accepted[r.messageId] == r)
  {
    InvRun(params, INITIAL, steps);
    var world := Run(params, INITIAL, steps);
    forall w, k | w in world.workers && world.workers[w].Returned? && 0 <= k < |world.workers[w].commit.results|
      ensures var r := world.workers[w].commit.results[k];
              r.messageId in world.publisher.accepted && world.publisher.accepted[r.messageId] == r
    {
      var commit := world.workers[w].commit;
      assert WorkerOk(params, world, world.workers[w]);
      assert commit.results[k] in world.journal.commits[commit.inputId].results;
    }
  }

  /** All replicas that return for the same input return the same commit. */
  lemma ReturnsAgree(params: Params, steps: seq<Step>, more: seq<Step>, v: nat, w: nat)
    requires WorkerOf(Run(params, INITIAL, steps), v).Returned?
    requires WorkerOf(Run(params, INITIAL, steps + more), w).Returned?
    ensures var a := WorkerOf(Run(params, INITIAL, steps), v).commit;
            var b := WorkerOf(Run(params, INITIAL, steps + more), w).commit;
            a.inputId == b.inputId ==> a == b
  {
    InvRun(params, INITIAL, steps);
    InvRun(params, INITIAL, steps + more);
    NothingStoredChanges(params, steps, more);
    assert WorkerOk(params, Run(params, INITIAL, steps), WorkerOf(Run(params, INITIAL, steps), v));
    assert WorkerOk(params, Run(params, INITIAL, steps + more), WorkerOf(Run(params, INITIAL, steps + more), w));
  }
}
