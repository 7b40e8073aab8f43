/**
 The rung barrier of a saturation run: SaturationCoordinator.finish_rung and _wait
 (src/benchmarkservice/saturation.py) driven by the ladder of SaturationDriver.schedule
 (src/benchmarkservice/locustfile.py), for any number of workers and any interleaving.

 Each worker runs a window, posts its progress in it, and waits for the decision; worker 0 first
 collects every worker's progress, in worker order, evaluates the rung and posts the decision. What
 is posted and decided are the functions of SaturationCoordinator. A worker may time out or stop
 anywhere. A step that is not enabled changes nothing.
 */
module SaturationBarrier {
  import opened Options
  import opened Sums
  import opened SaturationCoordinator
  import opened BenchmarkConfig
  import opened LoadSchedules

  /** The same on every worker: the number of rungs of the ladder, the kind of application, and how
      a goodput is rounded. */
  datatype Params = Params(rungs: nat, nats: bool, rounded: real -> real)

  datatype Phase =
    | Ready
    | InWindow(completedBefore: nat)
    | Collecting(window: Window, seen: seq<Progress>)
    | Waiting
    | Done
    | Failed

  /** `decisions` and `posts` are what the worker was told and has posted, one entry a rung; the
      worker is on rung |decisions|. `completed` is its recorder's completed count. `orders` counts,
      apart from all that, the orders that completed inside each of its windows. */
  datatype Worker = Worker(
    phase: Phase, decisions: seq<Decision>, posts: seq<Progress>, completed: nat, orders: seq<nat>)

  /** `progress` and `decided` are the shared coordination objects. */
  datatype World = World(workers: seq<Worker>, progress: map<(nat, nat), Progress>, decided: map<nat, Decision>)

  /** `measured` is what a worker measured over its window besides its completed count. */
  datatype Step =
    | CompleteOrder(w: nat)
    | BeginRung(w: nat)
    | FinishWindow(w: nat, measured: Window)
    | CollectNext
    | Decide
    | ReceiveDecision(w: nat)
    | GiveUp(w: nat)

  function Initial(count: nat): World {
    World(seq(count, _ => Worker(Ready, [], [], 0, [])), map[], map[])
  }

  function Set(world: World, w: nat, worker: Worker): World
    requires w < |world.workers|
  {
    world.(workers := world.workers[w := worker])
  }

  function Told(worker: Worker, decision: Decision): Worker {
    worker.(decisions := worker.decisions + [decision], phase := if decision.stop then Done else Ready)
  }

  predicate IsFinal(params: Params, rung: nat) {
    rung + 1 >= params.rungs
  }

  /** The arguments of finish_rung. */
  function WindowOf(params: Params, worker: Worker, measured: Window): Window
    requires worker.phase.InWindow?
  {
    measured.(
      rung := |worker.decisions|,
      completedBefore := worker.phase.completedBefore,
      completedAfter := worker.completed,
      finalRung := IsFinal(params, |worker.decisions|))
  }

  /** One more order completed. */
  function WithOrder(worker: Worker): Worker {
    worker.(
      completed := worker.completed + 1,
      orders := if worker.phase.InWindow? && worker.orders != [] then
                  worker.orders[|worker.orders| - 1 := worker.orders[|worker.orders| - 1] + 1]
                else worker.orders)
  }

  function Entered(worker: Worker): Worker {
    worker.(phase := InWindow(worker.completed), orders := worker.orders + [0])
  }

  function Post(params: Params, world: World, w: nat, measured: Window): World
    requires w < |world.workers| && world.workers[w].phase.InWindow?
  {
    var worker := world.workers[w];
    var window := WindowOf(params, worker, measured);
    var own := OwnProgress(w, window);
    Set(world.(progress := world.progress[(window.rung, w) := own]), w,
        worker.(posts := worker.posts + [own], phase := if w == 0 then Collecting(window, []) else Waiting))
  }

  /** Worker 0 has collected all progress. */
  predicate CanDecide(world: World) {
    && |world.workers| > 0 && world.workers[0].phase.Collecting?
    && |world.workers[0].phase.seen| == |world.workers|
  }

  function Decided(params: Params, world: World): Decision
    requires CanDecide(world)
  {
    var coordinator := world.workers[0];
    Evaluate(params.nats, coordinator.phase.window, coordinator.phase.seen,
        LastKnown(params.rounded, coordinator.decisions))
  }

  predicate CanCollect(world: World) {
    && |world.workers| > 0 && world.workers[0].phase.Collecting?
    && |world.workers[0].phase.seen| < |world.workers|
    && (|world.workers[0].decisions|, |world.workers[0].phase.seen|) in world.progress
  }

  function Collected(world: World): Worker
    requires CanCollect(world)
  {
    var coordinator := world.workers[0];
    var next := world.progress[(|coordinator.decisions|, |coordinator.phase.seen|)];
    coordinator.(phase := Collecting(coordinator.phase.window, coordinator.phase.seen + [next]))
  }

  predicate CanReceive(world: World, w: nat) {
    w < |world.workers| && world.workers[w].phase == Waiting && |world.workers[w].decisions| in world.decided
  }

  function Apply(params: Params, world: World, step: Step): World {
    match step
    case CompleteOrder(w) =>
      if w < |world.workers| then Set(world, w, WithOrder(world.workers[w])) else world
    case BeginRung(w) =>
      if w < |world.workers| && world.workers[w].phase == Ready then
        Set(world, w, Entered(world.workers[w]))
      else world
    case FinishWindow(w, measured) =>
      if w < |world.workers| && world.workers[w].phase.InWindow? then Post(params, world, w, measured) else world
    case CollectNext => if CanCollect(world) then Set(world, 0, Collected(world)) else world
    case Decide =>
      if CanDecide(world) then
        var decision := Decided(params, world);
        Set(world.(decided := world.decided[|world.workers[0].decisions| := decision]), 0,
            Told(world.workers[0], decision))
      else world
    case ReceiveDecision(w) =>
      if CanReceive(world, w) then
        Set(world, w, Told(world.workers[w], world.decided[|world.workers[w].decisions|]))
      else world
    case GiveUp(w) =>
      if w < |world.workers| then Set(world, w, world.workers[w].(phase := Failed)) else world
  }

  function Run(params: Params, world: World, steps: seq<Step>): World
    decreases |steps|
  {
    if steps == [] then world else Run(params, Apply(params, world, steps[0]), steps[1..])
  }

  // ----- Invariant -----

  /** A window of rung `r`. */
  predicate IsWindowOf(params: Params, window: Window, r: nat) {
    window.rung == r && (window.finalRung <==> IsFinal(params, r))
  }

  ghost predicate PhaseOk(params: Params, workers: seq<Worker>, w: nat)
    requires w < |workers|
  {
    var worker := workers[w];
    var r := |worker.decisions|;
    match worker.phase
    case Ready => |worker.posts| == r
    case InWindow(before) => |worker.posts| == r && Sum(Completed(worker.posts)) <= before <= worker.completed
    case Collecting(window, seen) =>
      && w == 0 && |worker.posts| == r + 1 && |seen| <= |workers| && IsWindowOf(params, window, r)
      && forall i :: 0 <= i < |seen| ==> |workers[i].posts| > r && workers[i].posts[r] == seen[i]
    case Waiting => w != 0 && |worker.posts| == r + 1
    case Done => |worker.posts| == r
    case Failed => r <= |worker.posts| <= r + 1
  }

  function Rungs(params: Params): nat {
    if params.rungs == 0 then 1 else params.rungs
  }

  ghost predicate WorkerOk(params: Params, workers: seq<Worker>, w: nat)
    requires w < |workers|
  {
    var worker := workers[w];
    && PhaseOk(params, workers, w)
    && worker.decisions <= workers[0].decisions
    && |worker.posts| >= |workers[0].decisions|
    && Sum(Completed(worker.posts)) <= worker.completed
    && |worker.decisions| <= Rungs(params)
    && (worker.phase.Done? || worker.phase.Failed? || |worker.decisions| < Rungs(params))
    && (forall r :: 0 <= r < |worker.posts| ==> worker.posts[r].completed >= 0)
    && OrdersOk(worker)
  }

  /** What was posted is what completed inside the window. */
  ghost predicate OrdersOk(worker: Worker) {
    && |worker.posts| <= |worker.orders|
    && (forall r :: 0 <= r < |worker.posts| ==> worker.posts[r].completed == worker.orders[r])
    && match worker.phase
       case InWindow(before) =>
         |worker.orders| == |worker.posts| + 1 && worker.completed == before + worker.orders[|worker.posts|]
       case Failed => true
       case _ => |worker.orders| == |worker.posts|
  }

  ghost predicate ObjectsOk(world: World) {
    && (forall r: nat, w: nat :: (r, w) in world.progress <==> w < |world.workers| && r < |world.workers[w].posts|)
    && (forall r: nat, w: nat :: (r, w) in world.progress ==> world.progress[(r, w)] == world.workers[w].posts[r])
    && (world.workers != [] ==>
          forall r: nat :: r in world.decided <==> r < |world.workers[0].decisions|)
    && (world.workers != [] ==>
          forall r: nat :: r in world.decided ==> world.decided[r] == world.workers[0].decisions[r])
  }

  /** What every worker posted for rung `r`, in worker order. */
  function Column(workers: seq<Worker>, r: nat): seq<Progress>
    requires forall w :: 0 <= w < |workers| ==> r < |workers[w].posts|
  {
    seq(|workers|, w requires 0 <= w < |workers| => workers[w].posts[r])
  }

  /** A decision is the evaluation of a window of rung `r`, of all that was posted for it, and of the
      goodput that was known before. */
  ghost predicate DecidedOn(params: Params, decision: Decision, r: nat, posts: seq<Progress>, previous: Option<real>) {
    exists window :: IsWindowOf(params, window, r) && decision == Evaluate(params.nats, window, posts, previous)
  }

  ghost predicate DecisionOk(params: Params, workers: seq<Worker>, r: nat)
    requires workers != [] && r < |workers[0].decisions|
  {
    && (forall w :: 0 <= w < |workers| ==> r < |workers[w].posts|)
    && var decisions := workers[0].decisions;
       DecidedOn(params, decisions[r], r, Column(workers, r), LastKnown(params.rounded, decisions[..r]))
  }

  ghost predicate WorkersOk(params: Params, workers: seq<Worker>) {
    forall w: nat {:trigger WorkerOk(params, workers, w)} :: w < |workers| ==> WorkerOk(params, workers, w)
  }

  ghost predicate DecisionsOk(params: Params, workers: seq<Worker>) {
    workers != [] ==>
      forall r: nat {:trigger DecisionOk(params, workers, r)} ::
        r < |workers[0].decisions| ==> DecisionOk(params, workers, r)
  }

  ghost predicate Inv(params: Params, world: World) {
    && ObjectsOk(world)
    && WorkersOk(params, world.workers)
    && DecisionsOk(params, world.workers)
  }

  // ----- Every step keeps the invariant -----

  lemma CompletedSnoc(posts: seq<Progress>, own: Progress)
    ensures Sum(Completed(posts + [own])) == Sum(Completed(posts)) + own.completed
  {
    assert Completed(posts + [own]) == Completed(posts) + [own.completed];
    SumSnoc(Completed(posts), own.completed);
  }

  /** Decisions depend only on what is posted, and earlier ones only on earlier posts. */
  lemma DecisionStays(params: Params, workers: seq<Worker>, later: seq<Worker>, r: nat)
    requires workers != [] && |later| == |workers| && r < |workers[0].decisions| && DecisionOk(params, workers, r)
    requires forall w :: 0 <= w < |workers| ==> workers[w].posts <= later[w].posts
    requires workers[0].decisions <= later[0].decisions
    ensures DecisionOk(params, later, r)
  {
    assert Column(later, r) == Column(workers, r);
    assert later[0].decisions[..r] == workers[0].decisions[..r];
  }

  /** A step of one worker that does not touch the objects, its posts or its decisions. */
  lemma MoveKeeps(params: Params, world: World, w: nat, worker: Worker)
    requires Inv(params, world) && w < |world.workers|
    requires worker.posts == world.workers[w].posts && worker.decisions == world.workers[w].decisions
    requires worker.completed >= world.workers[w].completed
    requires worker.phase.Failed? || worker.phase == world.workers[w].phase
      || (!world.workers[w].phase.Failed? && !world.workers[w].phase.Done?)
    requires PhaseOk(params, world.workers[w := worker], w) && OrdersOk(worker)
    ensures Inv(params, Set(world, w, worker))
  {
    var next := Set(world, w, worker);
    forall v: nat | v < |next.workers|
      ensures WorkerOk(params, next.workers, v)
    {
      assert WorkerOk(params, world.workers, v);
      assert WorkerOk(params, world.workers, w);
    }
    forall r: nat | r < |next.workers[0].decisions|
      ensures DecisionOk(params, next.workers, r)
    {
      assert DecisionOk(params, world.workers, r);
      DecisionStays(params, world.workers, next.workers, r);
    }
  }

  lemma CompleteOrderKeeps(params: Params, world: World, w: nat)
    requires Inv(params, world)
    ensures Inv(params, Apply(params, world, CompleteOrder(w)))
  {
    if w < |world.workers| {
      assert WorkerOk(params, world.workers, w);
      MoveKeeps(params, world, w, WithOrder(world.workers[w]));
    }
  }

  lemma BeginRungKeeps(params: Params, world: World, w: nat)
    requires Inv(params, world)
    ensures Inv(params, Apply(params, world, BeginRung(w)))
  {
    if w < |world.workers| && world.workers[w].phase == Ready {
      assert WorkerOk(params, world.workers, w);
      MoveKeeps(params, world, w, Entered(world.workers[w]));
    }
  }

  lemma CollectKeeps(params: Params, world: World)
    requires Inv(params, world)
    ensures Inv(params, Apply(params, world, CollectNext))
  {
    if CanCollect(world) {
      assert WorkerOk(params, world.workers, 0);
      MoveKeeps(params, world, 0, Collected(world));
    }
  }

  lemma GiveUpKeeps(params: Params, world: World, w: nat)
    requires Inv(params, world)
    ensures Inv(params, Apply(params, world, GiveUp(w)))
  {
    if w < |world.workers| {
      assert WorkerOk(params, world.workers, w);
      MoveKeeps(params, world, w, world.workers[w].(phase := Failed));
    }
  }

  lemma PosterOk(params: Params, world: World, w: nat, measured: Window)
    requires Inv(params, world) && w < |world.workers| && world.workers[w].phase.InWindow?
    ensures WorkerOk(params, Post(params, world, w, measured).workers, w)
  {
    assert WorkerOk(params, world.workers, w);
    CompletedSnoc(world.workers[w].posts, OwnProgress(w, WindowOf(params, world.workers[w], measured)));
  }

  lemma PostKeepsWorkers(params: Params, world: World, w: nat, measured: Window)
    requires Inv(params, world) && w < |world.workers| && world.workers[w].phase.InWindow?
    ensures WorkersOk(params, Post(params, world, w, measured).workers)
  {
    var next := Post(params, world, w, measured);
    assert WorkerOk(params, world.workers, w);
    forall v: nat | v < |next.workers|
      ensures WorkerOk(params, next.workers, v)
    {
      if v == w {
        PosterOk(params, world, w, measured);
      } else {
        assert WorkerOk(params, world.workers, v);
      }
    }
  }

  lemma PostKeepsDecisions(params: Params, world: World, w: nat, measured: Window)
    requires Inv(params, world) && w < |world.workers| && world.workers[w].phase.InWindow?
    ensures DecisionsOk(params, Post(params, world, w, measured).workers)
  {
    var next := Post(params, world, w, measured);
    forall r: nat | r < |next.workers[0].decisions|
      ensures DecisionOk(params, next.workers, r)
    {
      assert DecisionOk(params, world.workers, r);
      DecisionStays(params, world.workers, next.workers, r);
    }
  }

  lemma PostKeeps(params: Params, world: World, w: nat, measured: Window)
    requires Inv(params, world) && w < |world.workers| && world.workers[w].phase.InWindow?
    ensures Inv(params, Post(params, world, w, measured))
  {
    assert WorkerOk(params, world.workers, w);
    PostKeepsWorkers(params, world, w, measured);
    PostKeepsDecisions(params, world, w, measured);
  }

  lemma DecideKeepsWorkers(params: Params, world: World)
    requires Inv(params, world) && CanDecide(world)
    ensures WorkersOk(params, Apply(params, world, Decide).workers)
  {
    var next := Apply(params, world, Decide);
    assert WorkerOk(params, world.workers, 0);
    forall v: nat | v < |next.workers|
      ensures WorkerOk(params, next.workers, v)
    {
      assert WorkerOk(params, world.workers, v);
    }
  }

  lemma DecideKeepsDecisions(params: Params, world: World)
    requires Inv(params, world) && CanDecide(world)
    ensures DecisionsOk(params, Apply(params, world, Decide).workers)
  {
    var next := Apply(params, world, Decide);
    var coordinator := world.workers[0];
    var rung := |coordinator.decisions|;
    assert WorkerOk(params, world.workers, 0);
    assert forall w :: 0 <= w < |world.workers| ==> rung < |world.workers[w].posts|;
    forall r: nat | r < |next.workers[0].decisions|
      ensures DecisionOk(params, next.workers, r)
    {
      if r < rung {
        assert DecisionOk(params, world.workers, r);
        DecisionStays(params, world.workers, next.workers, r);
      } else {
        assert Column(next.workers, r) == coordinator.phase.seen;
        assert next.workers[0].decisions[..r] == coordinator.decisions;
        assert IsWindowOf(params, coordinator.phase.window, r);
      }
    }
  }

  lemma DecideKeeps(params: Params, world: World)
    requires Inv(params, world)
    ensures Inv(params, Apply(params, world, Decide))
  {
    if CanDecide(world) {
      assert WorkerOk(params, world.workers, 0);
      DecideKeepsWorkers(params, world);
      DecideKeepsDecisions(params, world);
    }
  }

  lemma StopsOnFinal(params: Params, workers: seq<Worker>, r: nat)
    requires workers != [] && r < |workers[0].decisions| && DecisionOk(params, workers, r)
    ensures workers[0].decisions[r].stop <==> IsFinal(params, r)
  {
  }

  lemma ReceiverOk(params: Params, world: World, w: nat)
    requires Inv(params, world) && CanReceive(world, w)
    ensures WorkerOk(params, Apply(params, world, ReceiveDecision(w)).workers, w)
  {
    var r := |world.workers[w].decisions|;
    assert WorkerOk(params, world.workers, w);
    assert DecisionOk(params, world.workers, r);
    StopsOnFinal(params, world.workers, r);
  }

  lemma ReceiveKeepsWorkers(params: Params, world: World, w: nat)
    requires Inv(params, world) && CanReceive(world, w)
    ensures WorkersOk(params, Apply(params, world, ReceiveDecision(w)).workers)
  {
    var next := Apply(params, world, ReceiveDecision(w));
    assert WorkerOk(params, world.workers, w);
    forall v: nat | v < |next.workers|
      ensures WorkerOk(params, next.workers, v)
    {
      if v == w {
        ReceiverOk(params, world, w);
      } else {
        assert WorkerOk(params, world.workers, v);
      }
    }
  }

  lemma ReceiveKeeps(params: Params, world: World, w: nat)
    requires Inv(params, world)
    ensures Inv(params, Apply(params, world, ReceiveDecision(w)))
  {
    if CanReceive(world, w) {
      var next := Apply(params, world, ReceiveDecision(w));
      assert WorkerOk(params, world.workers, w);
      ReceiveKeepsWorkers(params, world, w);
      forall r: nat | r < |next.workers[0].decisions|
        ensures DecisionOk(params, next.workers, r)
      {
        assert DecisionOk(params, world.workers, r);
        DecisionStays(params, world.workers, next.workers, r);
      }
    }
  }

  lemma InvStep(params: Params, world: World, step: Step)
    requires Inv(params, world)
    ensures Inv(params, Apply(params, world, step)) && |Apply(params, world, step).workers| == |world.workers|
  {
    match step
    case CompleteOrder(w) => CompleteOrderKeeps(params, world, w);
    case BeginRung(w) => BeginRungKeeps(params, world, w);
    case FinishWindow(w, measured) =>
      if w < |world.workers| && world.workers[w].phase.InWindow? {
        PostKeeps(params, world, w, measured);
      }
    case CollectNext => CollectKeeps(params, world);
    case Decide => DecideKeeps(params, world);
    case ReceiveDecision(w) => ReceiveKeeps(params, world, w);
    case GiveUp(w) => GiveUpKeeps(params, world, w);
  }

  lemma {:induction false} InvRun(params: Params, world: World, steps: seq<Step>)
    requires Inv(params, world)
    ensures Inv(params, Run(params, world, steps)) && |Run(params, world, steps).workers| == |world.workers|
    decreases |steps|
  {
    if steps != [] {
      InvStep(params, world, steps[0]);
      InvRun(params, Apply(params, world, steps[0]), steps[1..]);
    }
  }

  lemma Reachable(params: Params, count: nat, steps: seq<Step>)
    ensures var world := Run(params, Initial(count), steps);
            Inv(params, world) && |world.workers| == count
  {
    InvRun(params, Initial(count), steps);
  }

  // ----- Theorems -----

  /** Lockstep: nobody is past a rung that some worker has not posted, any two workers' rungs differ
      by at most one, and nobody runs more rungs than the ladder has. */
  lemma Lockstep(params: Params, count: nat, steps: seq<Step>, v: nat, w: nat)
    requires v < count && w < count
    ensures var workers := Run(params, Initial(count), steps).workers;
            && |workers| == count
            && |workers[w].posts| >= |workers[v].decisions|
            && |workers[v].decisions| - |workers[w].decisions| <= 1
            && |workers[v].decisions| <= Rungs(params)
  {
    Reachable(params, count, steps);
    var workers := Run(params, Initial(count), steps).workers;
    assert WorkerOk(params, workers, v) && WorkerOk(params, workers, w);
  }

  /** Agreement: all workers that left rung r were told the same decision, which evaluates what all
      workers posted for that rung against the goodput known before; its completed count is the sum
      of theirs, and it stops them exactly on the last rung. */
  lemma DecisionsAgree(params: Params, count: nat, steps: seq<Step>, v: nat, w: nat, r: nat)
    requires v < count && w < count
    requires var workers := Run(params, Initial(count), steps).workers;
             |workers| == count && r < |workers[v].decisions| && r < |workers[w].decisions|
    ensures var workers := Run(params, Initial(count), steps).workers;
            && workers[v].decisions[r] == workers[w].decisions[r]
            && (forall u :: 0 <= u < count ==> r < |workers[u].posts|)
            && DecidedOn(params, workers[v].decisions[r], r, Column(workers, r),
                         LastKnown(params.rounded, workers[v].decisions[..r]))
            && (exists window :: IsWindowOf(params, window, r)
                  && Explains(params.nats, window, Column(workers, r),
                              LastKnown(params.rounded, workers[v].decisions[..r]), workers[v].decisions[r]))
            && workers[v].decisions[r].completed == Sum(Completed(Column(workers, r)))
            && (workers[v].decisions[r].stop <==> IsFinal(params, r))
  {
    Reachable(params, count, steps);
    var workers := Run(params, Initial(count), steps).workers;
    assert WorkerOk(params, workers, v) && WorkerOk(params, workers, w);
    assert DecisionOk(params, workers, r);
    assert workers[v].decisions[..r] == workers[0].decisions[..r];
    var previous := LastKnown(params.rounded, workers[v].decisions[..r]);
    var window :| IsWindowOf(params, window, r)
      && workers[v].decisions[r] == Evaluate(params.nats, window, Column(workers, r), previous);
    EvaluateExplains(params.nats, window, Column(workers, r), previous);
  }

  /** The clamp of a posted count never fires. */
  lemma PostedCountIsExact(params: Params, count: nat, steps: seq<Step>, w: nat)
    requires w < count
    requires var workers := Run(params, Initial(count), steps).workers;
             |workers| == count && workers[w].phase.InWindow?
    ensures var worker := Run(params, Initial(count), steps).workers[w];
            worker.completed >= worker.phase.completedBefore
  {
    Reachable(params, count, steps);
    assert WorkerOk(params, Run(params, Initial(count), steps).workers, w);
  }

  /** What a worker posts for a rung is exactly the number of orders that completed on it between
      the start and the end of its window. */
  lemma PostsAreWindowOrders(params: Params, count: nat, steps: seq<Step>, w: nat, r: nat)
    requires w < count
    requires var workers := Run(params, Initial(count), steps).workers;
             |workers| == count && r < |workers[w].posts|
    ensures var worker := Run(params, Initial(count), steps).workers[w];
            r < |worker.orders| && worker.posts[r].completed == worker.orders[r]
  {
    Reachable(params, count, steps);
    assert WorkerOk(params, Run(params, Initial(count), steps).workers, w);
  }

  /** The orders that completed inside the windows of rung `r`, worker by worker. */
  function WindowOrders(workers: seq<Worker>, r: nat): seq<int>
    requires forall w :: 0 <= w < |workers| ==> r < |workers[w].orders|
  {
    seq(|workers|, w requires 0 <= w < |workers| => workers[w].orders[r])
  }

  /** So a decision counts exactly the orders that completed inside the windows of its rung. */
  lemma DecidedCountIsWindowOrders(params: Params, count: nat, steps: seq<Step>, v: nat, r: nat)
    requires v < count
    requires var workers := Run(params, Initial(count), steps).workers;
             |workers| == count && r < |workers[v].decisions|
    ensures var workers := Run(params, Initial(count), steps).workers;
            && (forall w :: 0 <= w < count ==> r < |workers[w].orders|)
            && workers[v].decisions[r].completed == Sum(WindowOrders(workers, r))
  {
    DecisionsAgree(params, count, steps, v, v, r);
    var workers := Run(params, Initial(count), steps).workers;
    forall w | 0 <= w < count
      ensures r < |workers[w].orders| && workers[w].posts[r].completed == workers[w].orders[r]
    {
      PostsAreWindowOrders(params, count, steps, w, r);
    }
    assert Completed(Column(workers, r)) == WindowOrders(workers, r);
  }

  function Completions(workers: seq<Worker>): seq<int> {
    seq(|workers|, w requires 0 <= w < |workers| => workers[w].completed)
  }

  function DecidedCounts(decisions: seq<Decision>): seq<int> {
    seq(|decisions|, r requires 0 <= r < |decisions| => decisions[r].completed)
  }

  /** What each worker posted for the rungs below `n`, summed. */
  function PostedBelow(workers: seq<Worker>, n: nat): seq<int>
    requires forall w :: 0 <= w < |workers| ==> n <= |workers[w].posts|
  {
    seq(|workers|, w requires 0 <= w < |workers| => Sum(Completed(workers[w].posts[..n])))
  }

  lemma NextColumn(workers: seq<Worker>, n: nat)
    requires n > 0 && forall w :: 0 <= w < |workers| ==> n <= |workers[w].posts|
    ensures Sum(PostedBelow(workers, n)) == Sum(PostedBelow(workers, n - 1)) + Sum(Completed(Column(workers, n - 1)))
  {
    var before, column, after :=
        PostedBelow(workers, n - 1), Completed(Column(workers, n - 1)), PostedBelow(workers, n);
    forall w | 0 <= w < |workers|
      ensures after[w] == before[w] + column[w]
    {
      assert workers[w].posts[..n] == workers[w].posts[..n - 1] + [workers[w].posts[n - 1]];
      CompletedSnoc(workers[w].posts[..n - 1], workers[w].posts[n - 1]);
    }
    SumAdd(before, column, after);
  }

  /** Summing the decided counts rung by rung, or the posted counts worker by worker. */
  lemma {:induction false} RowsAndColumns(workers: seq<Worker>, decisions: seq<Decision>, n: nat)
    requires n <= |decisions|
    requires forall w :: 0 <= w < |workers| ==> n <= |workers[w].posts|
    requires forall r: nat :: r < n ==> decisions[r].completed == Sum(Completed(Column(workers, r)))
    ensures Sum(DecidedCounts(decisions[..n])) == Sum(PostedBelow(workers, n))
    decreases n
  {
    if n == 0 {
      SumZero(PostedBelow(workers, 0));
    } else {
      RowsAndColumns(workers, decisions, n - 1);
      var counts := DecidedCounts(decisions[..n]);
      assert counts[..n - 1] == DecidedCounts(decisions[..n - 1]);
      NextColumn(workers, n);
    }
  }

  /** Conservation: the completed counts of all decided rungs together never exceed the orders that
      actually completed, so no order is counted in two rungs. */
  lemma RungsNeverOvercount(params: Params, count: nat, steps: seq<Step>)
    requires count > 0
    ensures var workers := Run(params, Initial(count), steps).workers;
            |workers| == count && Sum(DecidedCounts(workers[0].decisions)) <= Sum(Completions(workers))
  {
    Reachable(params, count, steps);
    var workers := Run(params, Initial(count), steps).workers;
    var n := |workers[0].decisions|;
    forall w: nat | w < |workers|
      ensures n <= |workers[w].posts| && Sum(Completed(workers[w].posts[..n])) <= workers[w].completed
    {
      assert WorkerOk(params, workers, w);
      SumPrefix(Completed(workers[w].posts), n);
      assert Completed(workers[w].posts)[..n] == Completed(workers[w].posts[..n]);
    }
    forall r: nat | r < n
      ensures workers[0].decisions[r].completed == Sum(Completed(Column(workers, r)))
    {
      assert DecisionOk(params, workers, r);
    }
    RowsAndColumns(workers, workers[0].decisions, n);
    assert workers[0].decisions[..n] == workers[0].decisions;
    SumMonotone(PostedBelow(workers, n), Completions(workers));
  }

  /** The barrier at the ladder of a configuration: the workers run its rungs in lockstep, and the
      decision that stops them all is exactly the one on the rung that the ladder calls final. */
  lemma LadderStopsTogether(
    config: Config, ladder: seq<Rung>, params: Params, steps: seq<Step>, v: nat, w: nat, r: nat)
    requires ValidRequest(config) && params.rungs == StepCount(config) == |ladder| > 0
    requires forall k: nat :: k < |ladder| ==> RungOk(config, k, |ladder| - 1, ladder[k])
    requires v < WorkerCount(config) && w < WorkerCount(config)
    ensures var workers := Run(params, Initial(WorkerCount(config)), steps).workers;
            && |workers| == WorkerCount(config)
            && |workers[v].decisions| <= |ladder|
            && |workers[v].decisions| - |workers[w].decisions| <= 1
            && (r < |workers[v].decisions| ==>
                  workers[v].decisions[r].rung == r && (workers[v].decisions[r].stop <==> ladder[r].final))
  {
    Lockstep(params, WorkerCount(config), steps, v, w);
    if r < |Run(params, Initial(WorkerCount(config)), steps).workers[v].decisions| {
      DecisionsAgree(params, WorkerCount(config), steps, v, v, r);
      assert RungOk(config, r, |ladder| - 1, ladder[r]);
    }
  }
}
