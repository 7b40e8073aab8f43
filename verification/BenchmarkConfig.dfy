/**
 The load fields of a benchmark configuration and how they are split over workers
 (src/benchmarkservice/config.py). Rates are real numbers: floating-point rounding is not modelled.
 */
module BenchmarkConfig {
  import opened Options
  import opened Rounding
  import opened Sums

  datatype Workload = Closed | Open | Saturation | FaultTolerance

  datatype Config = Config(
    workload: Workload,
    warmupSeconds: int,
    durationSeconds: int,
    drainSeconds: int,
    users: int,
    spawnRate: real,
    arrivalRate: real,
    saturationStartRate: real,
    saturationMaxRate: real,
    saturationStepSeconds: int,
    seed: int,
    collectResources: bool,
    collectNatsMetrics: bool)

  const MAX_OPEN_ARRIVAL_RATE_PER_WORKER := 50.0

  const MAX_CLOSED_USERS_PER_WORKER := 1000

  const SATURATION_STEP_RATE := 10.0

  const SEED_MODULUS := 2_147_483_648

  /** The ranges of _from_values; only the least spawn rate differs between a request and a worker
      configuration. */
  predicate Validates(config: Config, minimumSpawnRate: real) {
    && 0 <= config.warmupSeconds <= 3600
    && 1 <= config.durationSeconds <= 3600
    && 1 <= config.drainSeconds <= 1800
    && 1 <= config.users <= 10_000
    && minimumSpawnRate <= config.spawnRate <= 10_000.0
    && 0.01 <= config.arrivalRate <= 10_000.0
    && 0.01 <= config.saturationStartRate <= 10_000.0
    && 0.01 <= config.saturationMaxRate <= 10_000.0
    && config.saturationStartRate <= config.saturationMaxRate
    && 10 <= config.saturationStepSeconds <= 300
    && 0 <= config.seed < SEED_MODULUS
  }

  predicate ValidRequest(config: Config) { Validates(config, 0.01) }

  predicate ValidWorkerConfig(config: Config) { Validates(config, 0.001) }

  function SubmissionSeconds(config: Config): int {
    config.warmupSeconds + config.durationSeconds
  }

  function StepCount(config: Config): int
    requires config.saturationStepSeconds > 0
  {
    Ceil(config.durationSeconds as real / config.saturationStepSeconds as real)
  }

  function EffectiveMaxRate(config: Config): real
    requires config.saturationStepSeconds > 0
  {
    var durationLimited := config.saturationStartRate + (StepCount(config) - 1) as real * SATURATION_STEP_RATE;
    if config.saturationMaxRate <= durationLimited then config.saturationMaxRate else durationLimited
  }

  function AtLeastOne(n: int): nat {
    if n >= 1 then n else 1
  }

  predicate IsOpen(config: Config) {
    config.workload.Open? || config.workload.FaultTolerance?
  }

  function WorkerCount(config: Config): nat
    requires config.saturationStepSeconds > 0
  {
    if IsOpen(config) then AtLeastOne(Ceil(config.arrivalRate / MAX_OPEN_ARRIVAL_RATE_PER_WORKER))
    else if config.workload.Saturation? then
      AtLeastOne(Ceil(EffectiveMaxRate(config) / MAX_OPEN_ARRIVAL_RATE_PER_WORKER))
    else AtLeastOne(Ceil(config.users as real / MAX_CLOSED_USERS_PER_WORKER as real))
  }

  function OpenShare(rate: real, index: nat): real {
    var rest := rate - index as real * MAX_OPEN_ARRIVAL_RATE_PER_WORKER;
    if MAX_OPEN_ARRIVAL_RATE_PER_WORKER <= rest then MAX_OPEN_ARRIVAL_RATE_PER_WORKER else rest
  }

  function UserShare(users: int, workers: nat, index: nat): int
    requires workers > 0
  {
    users / workers + if index < users % workers then 1 else 0
  }

  /** for_worker; no configuration for an index outside [0, worker_count). */
  function ForWorker(config: Config, index: int): Option<Config>
    requires config.saturationStepSeconds > 0
  {
    var workers := WorkerCount(config);
    if index < 0 || index >= workers then None
    else
      var common := config.(
        seed := (config.seed + index) % SEED_MODULUS,
        collectResources := config.collectResources && index == 0,
        collectNatsMetrics := config.collectNatsMetrics && index == 0);
      if IsOpen(config) then Some(common.(arrivalRate := OpenShare(config.arrivalRate, index)))
      else if config.workload.Saturation? then Some(common)
      else Some(common.(users := UserShare(config.users, workers, index),
        spawnRate := config.spawnRate / workers as real))
  }

  // ----- Open-loop shares -----

  /** ceil(x / 50) is the n with 50 (n - 1) < x <= 50 n. */
  lemma OpenWorkerCount(config: Config)
    requires ValidRequest(config) && IsOpen(config)
    ensures var n := WorkerCount(config) as real;
            (n - 1.0) * MAX_OPEN_ARRIVAL_RATE_PER_WORKER < config.arrivalRate <= n * MAX_OPEN_ARRIVAL_RATE_PER_WORKER
  {
    var x := config.arrivalRate / MAX_OPEN_ARRIVAL_RATE_PER_WORKER;
    assert x * MAX_OPEN_ARRIVAL_RATE_PER_WORKER == config.arrivalRate;
    assert Ceil(x) >= 1;
  }

  function SumShares(config: Config, n: nat): real
    requires ValidRequest(config) && IsOpen(config) && n <= WorkerCount(config)
  {
    if n == 0 then 0.0 else SumShares(config, n - 1) + ForWorker(config, n - 1).value.arrivalRate
  }

  lemma {:induction false} SharesBelowAreFull(config: Config, n: nat)
    requires ValidRequest(config) && IsOpen(config) && n < WorkerCount(config)
    ensures SumShares(config, n) == n as real * MAX_OPEN_ARRIVAL_RATE_PER_WORKER
    decreases n
  {
    OpenWorkerCount(config);
    if n > 0 {
      SharesBelowAreFull(config, n - 1);
      assert (n - 1) as real <= WorkerCount(config) as real - 2.0;
      assert OpenShare(config.arrivalRate, n - 1) == MAX_OPEN_ARRIVAL_RATE_PER_WORKER;
    }
  }

  /** Splitting open-loop load conserves it: every share lies in (0, 50] and together they are the
      requested rate. */
  lemma OpenLoadIsConserved(config: Config, index: nat)
    requires ValidRequest(config) && IsOpen(config) && index < WorkerCount(config)
    ensures 0.0 < ForWorker(config, index).value.arrivalRate <= MAX_OPEN_ARRIVAL_RATE_PER_WORKER
    ensures SumShares(config, WorkerCount(config)) == config.arrivalRate
  {
    var n := WorkerCount(config);
    OpenWorkerCount(config);
    SharesBelowAreFull(config, n - 1);
    assert index as real <= n as real - 1.0;
  }

  /** A worker revalidates its configuration with the request's bound of 0.01 on the arrival rate.
      All workers accept theirs exactly when the remainder share is at least 0.01. */
  lemma WorkersAcceptIff(config: Config)
    requires ValidRequest(config) && IsOpen(config)
    ensures (forall index: nat :: index < WorkerCount(config) ==> ValidWorkerConfig(ForWorker(config, index).value))
            <==> config.arrivalRate - (WorkerCount(config) - 1) as real * MAX_OPEN_ARRIVAL_RATE_PER_WORKER >= 0.01
  {
    var n := WorkerCount(config);
    OpenWorkerCount(config);
    assert n as real - 1.0 == (n - 1) as real;
    var last := OpenShare(config.arrivalRate, n - 1);
    assert last == config.arrivalRate - (n - 1) as real * MAX_OPEN_ARRIVAL_RATE_PER_WORKER;
    assert ForWorker(config, n - 1).value.arrivalRate == last;
    forall index: nat | index < n && last >= 0.01
      ensures ValidWorkerConfig(ForWorker(config, index).value)
    {
      OpenLoadIsConserved(config, index);
      assert index as real <= (n - 1) as real;
      assert OpenShare(config.arrivalRate, index) >= 0.01;
    }
  }

  /** A valid request for 50.005 requests a second: its second worker refuses its configuration. */
  lemma RemainderShareCanBeRefused(config: Config)
    requires ValidRequest(config) && IsOpen(config) && config.arrivalRate == 50.005
    ensures WorkerCount(config) == 2 && !ValidWorkerConfig(ForWorker(config, 1).value)
  {
    CeilIs(config.arrivalRate / MAX_OPEN_ARRIVAL_RATE_PER_WORKER, 2);
  }

  // ----- Closed-loop shares -----

  lemma ClosedWorkerCount(config: Config)
    requires ValidRequest(config) && config.workload.Closed?
    ensures var n := WorkerCount(config);
            1 <= n <= 10 && MAX_CLOSED_USERS_PER_WORKER * (n - 1) < config.users <= MAX_CLOSED_USERS_PER_WORKER * n
  {
    var x := config.users as real / MAX_CLOSED_USERS_PER_WORKER as real;
    assert x * MAX_CLOSED_USERS_PER_WORKER as real == config.users as real;
    assert Ceil(x) >= 1;
    CeilMonotone(x, 10.0);
    CeilIs(10.0, 10);
  }

  function UserShares(users: int, workers: nat, n: nat): seq<int>
    requires workers > 0
  {
    seq(n, index requires 0 <= index < n => UserShare(users, workers, index))
  }

  lemma {:induction false} SumOfUserShares(users: int, workers: nat, n: nat)
    requires workers > 0 && n <= workers
    ensures Sum(UserShares(users, workers, n))
        == n * (users / workers) + if n <= users % workers then n else users % workers
    decreases n
  {
    if n > 0 {
      SumOfUserShares(users, workers, n - 1);
      assert UserShares(users, workers, n)[..n - 1] == UserShares(users, workers, n - 1);
      assert n * (users / workers) == (n - 1) * (users / workers) + users / workers;
    }
  }

  lemma UserShareBounds(users: int, n: nat, i: nat)
    requires 1 <= n <= 10 && MAX_CLOSED_USERS_PER_WORKER * (n - 1) < users <= MAX_CLOSED_USERS_PER_WORKER * n
    ensures 1 <= UserShare(users, n, i) <= MAX_CLOSED_USERS_PER_WORKER
    ensures n * (users / n) + users % n == users
  {
    var q, r := users / n, users % n;
    assert users == q * n + r;
    assert q <= 0 ==> q * n <= 0;
    assert q > MAX_CLOSED_USERS_PER_WORKER ==> q * n >= (MAX_CLOSED_USERS_PER_WORKER + 1) * n;
    assert q == MAX_CLOSED_USERS_PER_WORKER ==> r == 0;
  }

  lemma SpawnShare(rate: real, n: nat)
    requires 1 <= n <= 10 && 0.01 <= rate <= 10_000.0
    ensures (rate / n as real) * n as real == rate && 0.001 <= rate / n as real <= 10_000.0
  {
    var m := n as real;
    var q := rate / m;
    assert q * m == rate;
    assert 1.0 <= m <= 10.0 && m * q == rate;
    DivLess(rate, m, 0.001);
    MulStrict(m, 10_000.0, q);
    assert 0.001 * m <= 0.01 && 10_000.0 <= m * 10_000.0;
  }

  /** Splitting closed-loop load conserves it: the user shares lie in [1, 1000], differ by at most
      one and add up to the users. */
  lemma ClosedLoadIsConserved(config: Config, i: nat, j: nat)
    requires ValidRequest(config) && config.workload.Closed?
    requires i < WorkerCount(config) && j < WorkerCount(config)
    ensures var a, b := ForWorker(config, i).value.users, ForWorker(config, j).value.users;
            1 <= a <= MAX_CLOSED_USERS_PER_WORKER && a - b <= 1
    ensures Sum(UserShares(config.users, WorkerCount(config), WorkerCount(config))) == config.users
  {
    var n := WorkerCount(config);
    ClosedWorkerCount(config);
    SumOfUserShares(config.users, n, n);
    UserShareBounds(config.users, n, i);
  }

  /** The spawn rates add up to the requested one, and every worker accepts its configuration. */
  lemma ClosedWorkersAccept(config: Config, i: nat)
    requires ValidRequest(config) && config.workload.Closed? && i < WorkerCount(config)
    ensures var worker := ForWorker(config, i).value;
            worker.spawnRate * WorkerCount(config) as real == config.spawnRate && ValidWorkerConfig(worker)
  {
    ClosedWorkerCount(config);
    UserShareBounds(config.users, WorkerCount(config), i);
    SpawnShare(config.spawnRate, WorkerCount(config));
  }

  /** Worker seeds are pairwise distinct. */
  lemma SeedsAreDistinct(config: Config, i: nat, j: nat)
    requires ValidRequest(config) && i < j < WorkerCount(config)
    ensures ForWorker(config, i).value.seed != ForWorker(config, j).value.seed
  {
    WorkerCountBound(config);
    SeedsDiffer(config.seed, i, j);
  }

  /** Worker 0 keeps the requested seed, and each further worker has the next one, wrapping at 2^31. */
  lemma SeedsCountUp(config: Config, i: nat)
    requires ValidRequest(config) && i + 1 < WorkerCount(config)
    ensures ForWorker(config, 0).value.seed == config.seed
    ensures var seed, next := ForWorker(config, i).value.seed, ForWorker(config, i + 1).value.seed;
            next == if seed == 2_147_483_647 then 0 else seed + 1
  {
    WorkerSeed(config, 0);
    WorkerSeed(config, i);
    WorkerSeed(config, i + 1);
    NextSeed(config.seed, i);
  }

  lemma WorkerSeed(config: Config, i: nat)
    requires ValidRequest(config) && i < WorkerCount(config)
    ensures ForWorker(config, i).value.seed == (config.seed + i) % SEED_MODULUS
  {
  }

  lemma NextSeed(seed: int, i: nat)
    requires 0 <= seed < SEED_MODULUS
    ensures (seed + 0) % SEED_MODULUS == seed
    ensures var r := (seed + i) % SEED_MODULUS;
            (seed + (i + 1)) % SEED_MODULUS == if r == 2_147_483_647 then 0 else r + 1
  {
  }

  lemma SeedsDiffer(seed: int, i: nat, j: nat)
    requires i < j < SEED_MODULUS
    ensures (seed + i) % SEED_MODULUS != (seed + j) % SEED_MODULUS
  {
    var a, b := (seed + i) / SEED_MODULUS, (seed + j) / SEED_MODULUS;
    assert seed + i == a * SEED_MODULUS + (seed + i) % SEED_MODULUS;
    assert seed + j == b * SEED_MODULUS + (seed + j) % SEED_MODULUS;
  }

  lemma WorkerCountBound(config: Config)
    requires ValidRequest(config)
    ensures WorkerCount(config) <= 200
  {
    if IsOpen(config) {
      CeilMonotone(config.arrivalRate / MAX_OPEN_ARRIVAL_RATE_PER_WORKER, 200.0);
    } else if config.workload.Saturation? {
      assert EffectiveMaxRate(config) <= 10_000.0;
      CeilMonotone(EffectiveMaxRate(config) / MAX_OPEN_ARRIVAL_RATE_PER_WORKER, 200.0);
    } else {
      ClosedWorkerCount(config);
    }
    CeilIs(200.0, 200);
  }

  // ----- What splitting keeps -----

  /** A configuration exists exactly for the indices of the workers. */
  lemma OnlyWorkersAreConfigured(config: Config, index: int)
    requires ValidRequest(config)
    ensures ForWorker(config, index).Some? <==> 0 <= index < WorkerCount(config)
  {
  }

  /** ceil(x / 50) workers for a saturation run, x being the highest rate that its ladder reaches. */
  lemma SaturationWorkerCount(config: Config)
    requires ValidRequest(config) && config.workload.Saturation?
    ensures var n := WorkerCount(config) as real;
            (n - 1.0) * 50.0 < EffectiveMaxRate(config) <= n * 50.0
  {
    var x := EffectiveMaxRate(config) / MAX_OPEN_ARRIVAL_RATE_PER_WORKER;
    assert x * MAX_OPEN_ARRIVAL_RATE_PER_WORKER == EffectiveMaxRate(config);
    assert StepCount(config) >= 1 by {
      DivLess(0.0, config.saturationStepSeconds as real, 1.0);
      assert config.durationSeconds as real / config.saturationStepSeconds as real > 0.0;
    }
    assert EffectiveMaxRate(config) >= 0.01;
    assert Ceil(x) >= 1;
  }

  /** Workers of a saturation run keep the global load: only seeds and the collection of metrics
      differ. */
  lemma SaturationWorkersKeepLadder(config: Config, index: nat)
    requires ValidRequest(config) && config.workload.Saturation? && index < WorkerCount(config)
    ensures var worker := ForWorker(config, index).value;
            && worker == config.(
                 seed := worker.seed, collectResources := worker.collectResources,
                 collectNatsMetrics := worker.collectNatsMetrics)
            && StepCount(worker) == StepCount(config) && EffectiveMaxRate(worker) == EffectiveMaxRate(config)
            && WorkerCount(worker) == WorkerCount(config)
  {
  }

  /** Metrics of the shared target are collected once: by worker 0, if at all. And no worker changes
      the workload, the phases or the ladder of the run. */
  lemma MetricsAreCollectedOnce(config: Config, index: nat)
    requires ValidRequest(config) && index < WorkerCount(config)
    ensures var worker := ForWorker(config, index).value;
            && (worker.collectResources <==> config.collectResources && index == 0)
            && (worker.collectNatsMetrics <==> config.collectNatsMetrics && index == 0)
            && worker.workload == config.workload
            && worker.warmupSeconds == config.warmupSeconds && worker.durationSeconds == config.durationSeconds
            && worker.drainSeconds == config.drainSeconds
            && worker.saturationStartRate == config.saturationStartRate
            && worker.saturationMaxRate == config.saturationMaxRate
            && worker.saturationStepSeconds == config.saturationStepSeconds
  {
  }
}
