/**
 Resource accounting over the steady-state samples of a run (resource_summary in
 src/benchmarkservice/reporting.py), in exact arithmetic and before results are rounded.
 */
module ResourceCounters {
  import opened Options

  /** One pod as sampled. Counters that may be missing matter only for disk latency. */
  datatype Pod = Pod(
    service: string, memory: real, cpu: real, received: real, transmitted: real,
    periods: real, throttledPeriods: real, throttledSeconds: real,
    diskOperations: Option<real>, diskSeconds: real, diskWeighted: Option<real>)

  /** The pods of a sample are a dictionary in insertion order. */
  datatype Sample = Sample(timestamp: real, names: seq<string>, pods: seq<Pod>)

  datatype Counter =
    | Cpu | Received | Transmitted | Periods | ThrottledPeriods | ThrottledSeconds
    | DiskOperations | DiskLatencyOperations | DiskSeconds | DiskWeighted | MemorySeconds

  datatype Amounts = Amounts(
    cpu: real, received: real, transmitted: real, periods: real, throttledPeriods: real, throttledSeconds: real,
    diskOperations: real, diskLatencyOperations: real, diskSeconds: real, diskWeighted: real, memorySeconds: real)
  {
    function At(c: Counter): real {
      match c
      case Cpu => cpu
      case Received => received
      case Transmitted => transmitted
      case Periods => periods
      case ThrottledPeriods => throttledPeriods
      case ThrottledSeconds => throttledSeconds
      case DiskOperations => diskOperations
      case DiskLatencyOperations => diskLatencyOperations
      case DiskSeconds => diskSeconds
      case DiskWeighted => diskWeighted
      case MemorySeconds => memorySeconds
    }

    function Plus(other: Amounts): (sum: Amounts)
      ensures forall c :: sum.At(c) == At(c) + other.At(c)
    {
      Amounts(cpu + other.cpu, received + other.received, transmitted + other.transmitted, periods + other.periods,
              throttledPeriods + other.throttledPeriods, throttledSeconds + other.throttledSeconds,
              diskOperations + other.diskOperations, diskLatencyOperations + other.diskLatencyOperations,
              diskSeconds + other.diskSeconds, diskWeighted + other.diskWeighted, memorySeconds + other.memorySeconds)
    }
  }

  const NOTHING := Amounts(0.0, 0.0, 0.0, 0.0, 0.0, 0.0, 0.0, 0.0, 0.0, 0.0, 0.0)

  ghost predicate ValidSample(sample: Sample) {
    && |sample.names| == |sample.pods|
    && Distinct(sample.names)
    && forall i :: 0 <= i < |sample.pods| ==> sample.pods[i].memory >= 0.0
  }

  ghost predicate Distinct(names: seq<string>) {
    forall i, j :: 0 <= i < j < |names| ==> names[i] != names[j]
  }

  function OrZero(x: Option<real>): real {
    if x.Some? then x.value else 0.0
  }

  function Rise(previous: real, current: real): real {
    if current - previous >= 0.0 then current - previous else 0.0
  }

  predicate HasLatency(previous: Pod, current: Pod) {
    current.diskOperations.Some? && previous.diskOperations.Some? && current.diskWeighted.Some?
        && previous.diskWeighted.Some?
  }

  /** What one pod used between two samples. */
  function Used(previous: Pod, current: Pod, seconds: real): Amounts {
    var operations := Rise(OrZero(previous.diskOperations), OrZero(current.diskOperations));
    var latency := HasLatency(previous, current);
    Amounts(
      Rise(previous.cpu, current.cpu), Rise(previous.received, current.received),
          Rise(previous.transmitted, current.transmitted),
      Rise(previous.periods, current.periods), Rise(previous.throttledPeriods, current.throttledPeriods),
      Rise(previous.throttledSeconds, current.throttledSeconds),
      operations, if latency then operations else 0.0, Rise(previous.diskSeconds, current.diskSeconds),
      if latency then Rise(previous.diskWeighted.value, current.diskWeighted.value) else 0.0,
      Area(seconds, previous.memory, current.memory))
  }

  /** The trapezoid under two levels. */
  function Area(seconds: real, before: real, after: real): real {
    (before + after) / 2.0 * seconds
  }

  function Find(names: seq<string>, name: string): (i: nat)
    ensures i <= |names| && name !in names[..i] && (i < |names| ==> names[i] == name)
  {
    if names == [] || names[0] == name then 0 else 1 + Find(names[1..], name)
  }

  function PodAt(sample: Sample, name: string): Option<Pod>
    requires |sample.names| == |sample.pods|
  {
    var i := Find(sample.names, name);
    if i < |sample.names| then Some(sample.pods[i]) else None
  }

  // ----- What the totals are meant to be -----

  function SumOver(names: seq<string>, f: string -> real): real
    decreases |names|
  {
    if names == [] then 0.0 else SumOver(names[..|names| - 1], f) + f(names[|names| - 1])
  }

  /** What a pod, by name, used between two samples that both have it, for one service or for all. */
  function UsedBy(previous: Sample, current: Sample, c: Counter, service: Option<string>, name: string): real
    requires |previous.names| == |previous.pods| && |current.names| == |current.pods|
  {
    var before, after := PodAt(previous, name), PodAt(current, name);
    if before.Some? && after.Some? && (service.None? || service.value == after.value.service)
    then Used(before.value, after.value, current.timestamp - previous.timestamp).At(c)
    else 0.0
  }

  function Usage(previous: Sample, current: Sample, c: Counter, service: Option<string>): string -> real
    requires |previous.names| == |previous.pods| && |current.names| == |current.pods|
  {
    name => UsedBy(previous, current, c, service, name)
  }

  ghost predicate ValidSamples(samples: seq<Sample>) {
    forall i :: 0 <= i < |samples| ==> ValidSample(samples[i])
  }

  function Interval(previous: Sample, current: Sample, c: Counter, service: Option<string>): real
    requires |previous.names| == |previous.pods| && |current.names| == |current.pods|
  {
    if current.timestamp - previous.timestamp <= 0.0 then 0.0
    else SumOver(current.names, Usage(previous, current, c, service))
  }

  /** The sum over all intervals between neighbouring samples. */
  ghost function Total(samples: seq<Sample>, c: Counter, service: Option<string>): real
    requires ValidSamples(samples)
    decreases |samples|
  {
    var n := |samples|;
    if n < 2 then 0.0 else Total(samples[..n - 1], c, service) + Interval(samples[n - 2], samples[n - 1], c, service)
  }

  function Memory(sample: Sample): real
    requires |sample.names| == |sample.pods|
  {
    SumOver(sample.names, Memories(sample))
  }

  function MemoryOf(sample: Sample, name: string): real
    requires |sample.names| == |sample.pods|
  {
    var pod := PodAt(sample, name);
    if pod.Some? then pod.value.memory else 0.0
  }

  function Memories(sample: Sample): string -> real
    requires |sample.names| == |sample.pods|
  {
    name => MemoryOf(sample, name)
  }

  function Trapezoid(previous: Sample, current: Sample): real
    requires |previous.names| == |previous.pods| && |current.names| == |current.pods|
  {
    var seconds := current.timestamp - previous.timestamp;
    if seconds <= 0.0 then 0.0 else Area(seconds, Memory(previous), Memory(current))
  }

  ghost function MemoryTotal(samples: seq<Sample>): real
    requires ValidSamples(samples)
    decreases |samples|
  {
    var n := |samples|;
    if n < 2 then 0.0 else MemoryTotal(samples[..n - 1]) + Trapezoid(samples[n - 2], samples[n - 1])
  }

  /** The time all counted intervals take. */
  function Elapsed(samples: seq<Sample>): real
    decreases |samples|
  {
    var n := |samples|;
    if n < 2 then 0.0 else Elapsed(samples[..n - 1]) + Rise(samples[n - 2].timestamp, samples[n - 1].timestamp)
  }

  lemma {:induction false} ElapsedIsWholeTime(samples: seq<Sample>)
    requires samples != [] && forall i :: 1 <= i < |samples| ==> samples[i - 1].timestamp <= samples[i].timestamp
    ensures Elapsed(samples) == samples[|samples| - 1].timestamp - samples[0].timestamp
    decreases |samples|
  {
    if |samples| >= 2 {
      ElapsedIsWholeTime(samples[..|samples| - 1]);
    }
  }

  // ----- The loops -----

  type ByService = seq<(string, Amounts)>

  function ServiceNames(services: ByService): seq<string> {
    seq(|services|, i requires 0 <= i < |services| => services[i].0)
  }

  function EntryOf(services: ByService, service: string): Amounts {
    var i := Find(ServiceNames(services), service);
    if i < |services| then services[i].1 else NOTHING
  }

  /** by_service[service][...] += ..., with the zero entry a defaultdict makes. */
  function AddTo(services: ByService, service: string, used: Amounts): ByService {
    var i := Find(ServiceNames(services), service);
    if i < |services| then services[i := (service, services[i].1.Plus(used))]
    else services + [(service, NOTHING.Plus(used))]
  }

  lemma {:induction false} FindDistinct(names: seq<string>, i: nat)
    requires Distinct(names) && i < |names|
    ensures Find(names, names[i]) == i
    decreases i
  {
    if i > 0 {
      FindDistinct(names[1..], i - 1);
    }
  }

  lemma AddToEntries(services: ByService, service: string, used: Amounts)
    requires Distinct(ServiceNames(services))
    ensures Distinct(ServiceNames(AddTo(services, service, used)))
    ensures forall s :: s in ServiceNames(AddTo(services, service, used)) <==>
        s in ServiceNames(services) || s == service
    ensures forall s :: EntryOf(AddTo(services, service, used), s)
                     == if s == service then EntryOf(services, s).Plus(used) else EntryOf(services, s)
  {
    var names, moreNames := ServiceNames(services), ServiceNames(AddTo(services, service, used));
    var i := Find(names, service);
    if i < |services| {
      assert moreNames == names;
    } else {
      assert moreNames == names + [service];
      assert names[..i] == names;
    }
    forall s
      ensures EntryOf(AddTo(services, service, used), s)
           == if s == service then EntryOf(services, s).Plus(used) else EntryOf(services, s)
    {
      AddToEntry(services, service, used, s);
    }
  }

  lemma AddToEntry(services: ByService, service: string, used: Amounts, s: string)
    requires Distinct(ServiceNames(services))
    ensures EntryOf(AddTo(services, service, used), s)
      == if s == service then EntryOf(services, s).Plus(used) else EntryOf(services, s)
  {
    var more := AddTo(services, service, used);
    var names, moreNames := ServiceNames(services), ServiceNames(more);
    var i, k := Find(names, service), Find(names, s);
    if i < |services| {
      assert moreNames == names;
    } else {
      assert moreNames == names + [service];
      FindSnoc(names, service, s);
    }
  }

  lemma {:induction false} FindSnoc(names: seq<string>, extra: string, s: string)
    ensures Find(names + [extra], s) ==
      if Find(names, s) < |names| then Find(names, s) else if s == extra then |names| else |names| + 1
  {
    if names != [] {
      assert (names + [extra])[1..] == names[1..] + [extra];
      FindSnoc(names[1..], extra, s);
    }
  }

  lemma NothingAt()
    ensures forall c :: NOTHING.At(c) == 0.0
  {
  }

  /** The services of the pods counted in an interval. */
  ghost predicate Covers(services: seq<string>, previous: Sample, current: Sample, n: nat)
    requires ValidSample(previous) && ValidSample(current) && n <= |current.names|
  {
    current.timestamp - previous.timestamp > 0.0 ==>
      forall i :: 0 <= i < n && current.names[i] in previous.names ==> current.pods[i].service in services
  }

  lemma FoundIffIn(names: seq<string>, name: string)
    ensures Find(names, name) < |names| <==> name in names
  {
  }

  /** The partial sums of one interval, after its first n pods. */
  ghost predicate Added(previous: Sample, current: Sample, n: nat, was: (Amounts, ByService), now: (Amounts, ByService))
    requires ValidSample(previous) && ValidSample(current) && n <= |current.names|
  {
    && Distinct(ServiceNames(now.1))
    && (forall s :: s in ServiceNames(was.1) ==> s in ServiceNames(now.1))
    && (forall c :: now.0.At(c) == was.0.At(c) + SumOver(current.names[..n], Usage(previous, current, c, None)))
    && (forall s, c :: EntryOf(now.1, s).At(c)
                    == EntryOf(was.1, s).At(c) + SumOver(current.names[..n], Usage(previous, current, c, Some(s))))
  }

  lemma AddPod(previous: Sample, current: Sample, n: nat, was: (Amounts, ByService), now: (Amounts, ByService),
      next: (Amounts, ByService))
    requires ValidSample(previous) && ValidSample(current) && n < |current.names|
    requires Added(previous, current, n, was, now)
    requires var pod := PodAt(previous, current.names[n]);
             if pod.None? then next == now
             else
               var used := Used(pod.value, current.pods[n], current.timestamp - previous.timestamp);
               next == (now.0.Plus(used), AddTo(now.1, current.pods[n].service, used))
    ensures Added(previous, current, n + 1, was, next)
  {
    var name := current.names[n];
    FindDistinct(current.names, n);
    assert current.names[..n + 1][..n] == current.names[..n];
    var pod := PodAt(previous, name);
    if pod.Some? {
      var used := Used(pod.value, current.pods[n], current.timestamp - previous.timestamp);
      AddToEntries(now.1, current.pods[n].service, used);
    }
  }

  /** The inner loop of resource_summary. */
  method AddInterval(previous: Sample, current: Sample, totals: Amounts, services: ByService)
    returns (newTotals: Amounts, newServices: ByService)
    requires ValidSample(previous) && ValidSample(current) && Distinct(ServiceNames(services))
    ensures Added(previous, current, |current.names|, (totals, services), (newTotals, newServices))
    ensures Covers(ServiceNames(newServices), previous, current, |current.names|)
  {
    newTotals, newServices := totals, services;
    for n := 0 to |current.names|
      invariant Added(previous, current, n, (totals, services), (newTotals, newServices))
      invariant Covers(ServiceNames(newServices), previous, current, n)
    {
      ghost var now := (newTotals, newServices);
      var pod := PodAt(previous, current.names[n]);
      FoundIffIn(previous.names, current.names[n]);
      if pod.Some? {
        var used := Used(pod.value, current.pods[n], current.timestamp - previous.timestamp);
        AddToEntries(newServices, current.pods[n].service, used);
        newTotals := newTotals.Plus(used);
        newServices := AddTo(newServices, current.pods[n].service, used);
      }
      AddPod(previous, current, n, (totals, services), now, (newTotals, newServices));
    }
  }

  ghost predicate CoversAll(services: seq<string>, samples: seq<Sample>)
    requires ValidSamples(samples)
  {
    forall i :: 1 <= i < |samples| ==> Covers(services, samples[i - 1], samples[i], |samples[i].names|)
  }

  ghost predicate Accounts(samples: seq<Sample>, totals: Amounts, services: ByService)
    requires ValidSamples(samples)
  {
    && Distinct(ServiceNames(services)) && CoversAll(ServiceNames(services), samples)
    && (forall c :: totals.At(c) == Total(samples, c, None))
    && (forall s, c :: EntryOf(services, s).At(c) == Total(samples, c, Some(s)))
  }

  lemma AddSample(samples: seq<Sample>, was: (Amounts, ByService), now: (Amounts, ByService))
    requires ValidSamples(samples) && |samples| >= 2
    requires var n := |samples| - 1;
             && Accounts(samples[..n], was.0, was.1)
             && (samples[n].timestamp - samples[n - 1].timestamp <= 0.0 ==> now == was)
             && (samples[n].timestamp - samples[n - 1].timestamp > 0.0 ==>
                   Added(samples[n - 1], samples[n], |samples[n].names|, was, now))
             && Covers(ServiceNames(now.1), samples[n - 1], samples[n], |samples[n].names|)
    ensures Accounts(samples, now.0, now.1)
  {
    var n := |samples| - 1;
    assert samples[n].names[..|samples[n].names|] == samples[n].names;
    AddCovers(samples, ServiceNames(was.1), ServiceNames(now.1));
  }

  lemma AddCovers(samples: seq<Sample>, was: seq<string>, now: seq<string>)
    requires ValidSamples(samples) && |samples| >= 2
    requires CoversAll(was, samples[..|samples| - 1]) && forall s :: s in was ==> s in now
    requires Covers(now, samples[|samples| - 2], samples[|samples| - 1], |samples[|samples| - 1].names|)
    ensures CoversAll(now, samples)
  {
    var n := |samples| - 1;
    forall i | 1 <= i < |samples|
      ensures Covers(now, samples[i - 1], samples[i], |samples[i].names|)
    {
      if i < n {
        assert Covers(was, samples[..n][i - 1], samples[..n][i], |samples[..n][i].names|);
      }
    }
  }

  /** What resource_summary holds after its first n samples. */
  ghost predicate Summed(samples: seq<Sample>, n: nat, memory: real, elapsed: real, totals: Amounts,
      services: ByService)
    requires ValidSamples(samples) && n <= |samples|
  {
    Accounts(samples[..n], totals, services) && memory == MemoryTotal(samples[..n]) && elapsed == Elapsed(samples[..n])
  }

  lemma NoneSummed(samples: seq<Sample>)
    requires ValidSamples(samples) && samples != []
    ensures Summed(samples, 1, 0.0, 0.0, NOTHING, [])
  {
    NothingAt();
  }

  /** resource_summary for two or more steady samples. */
  method ResourceSummary(samples: seq<Sample>)
    returns (memoryByteSeconds: real, elapsed: real, totals: Amounts, services: ByService)
    requires ValidSamples(samples) && |samples| >= 2
    ensures Accounts(samples, totals, services)
    ensures memoryByteSeconds == MemoryTotal(samples) && elapsed == Elapsed(samples)
  {
    memoryByteSeconds, elapsed, totals, services := 0.0, 0.0, NOTHING, [];
    NoneSummed(samples);
    for n := 1 to |samples|
      invariant Summed(samples, n, memoryByteSeconds, elapsed, totals, services)
    {
      ghost var was := (totals, services);
      assert samples[..n + 1][..n] == samples[..n];
      var seconds := samples[n].timestamp - samples[n - 1].timestamp;
      if seconds > 0.0 {
        elapsed := elapsed + seconds;
        memoryByteSeconds := memoryByteSeconds + Area(seconds, Memory(samples[n - 1]), Memory(samples[n]));
        totals, services := AddInterval(samples[n - 1], samples[n], totals, services);
      }
      AddSample(samples[..n + 1], was, (totals, services));
    }
    assert samples[..|samples|] == samples;
  }

  // ----- Sums over names -----

  lemma {:induction false} SumSame(names: seq<string>, f: string -> real, g: string -> real)
    requires forall n :: n in names ==> f(n) == g(n)
    ensures SumOver(names, f) == SumOver(names, g)
    decreases |names|
  {
    if names != [] {
      SumSame(names[..|names| - 1], f, g);
    }
  }

  lemma {:induction false} SumAtMost(names: seq<string>, f: string -> real, g: string -> real)
    requires forall n :: n in names ==> f(n) <= g(n)
    ensures SumOver(names, f) <= SumOver(names, g)
    decreases |names|
  {
    if names != [] {
      SumAtMost(names[..|names| - 1], f, g);
    }
  }

  lemma AreaNonNegative(seconds: real, before: real, after: real)
    requires seconds > 0.0 && before >= 0.0 && after >= 0.0
    ensures Area(seconds, before, after) >= 0.0
  {
  }

  lemma AreaAdds(seconds: real, a: real, b: real, c: real, d: real)
    ensures Area(seconds, a + c, b + d) == Area(seconds, a, b) + Area(seconds, c, d)
  {
  }

  lemma AreaMonotone(seconds: real, a: real, b: real, after: real)
    requires seconds > 0.0 && a <= b
    ensures Area(seconds, a, after) <= Area(seconds, b, after)
  {
    AreaAdds(seconds, a, after, b - a, 0.0);
    AreaNonNegative(seconds, b - a, 0.0);
  }

  lemma {:induction false} SumAreas(names: seq<string>, seconds: real, f: string -> real, g: string -> real,
      h: string -> real)
    requires forall n :: n in names ==> h(n) == Area(seconds, f(n), g(n))
    ensures SumOver(names, h) == Area(seconds, SumOver(names, f), SumOver(names, g))
    decreases |names|
  {
    if names != [] {
      var k := |names| - 1;
      SumAreas(names[..k], seconds, f, g, h);
      AreaAdds(seconds, SumOver(names[..k], f), SumOver(names[..k], g), f(names[k]), g(names[k]));
    }
  }

  lemma {:induction false} SumDifference(names: seq<string>, f: string -> real, g: string -> real, h: string -> real)
    requires forall n :: n in names ==> h(n) == f(n) - g(n)
    ensures SumOver(names, h) == SumOver(names, f) - SumOver(names, g)
    decreases |names|
  {
    if names != [] {
      SumDifference(names[..|names| - 1], f, g, h);
    }
  }

  lemma {:induction false} SumNonNegative(names: seq<string>, f: string -> real)
    requires forall n :: n in names ==> f(n) >= 0.0
    ensures SumOver(names, f) >= 0.0
    decreases |names|
  {
    if names != [] {
      SumNonNegative(names[..|names| - 1], f);
    }
  }

  lemma {:induction false} SumSingle(names: seq<string>, x: string, f: string -> real)
    requires Distinct(names) && forall n :: n in names && n != x ==> f(n) == 0.0
    ensures SumOver(names, f) == if x in names then f(x) else 0.0
    decreases |names|
  {
    if names != [] {
      var k := |names| - 1;
      assert names[..k] + [names[k]] == names;
      SumSingle(names[..k], x, f);
    }
  }

  lemma {:induction false} SumRemove(names: seq<string>, i: nat, f: string -> real)
    requires i < |names|
    ensures SumOver(names, f) == SumOver(names[..i] + names[i + 1..], f) + f(names[i])
    decreases |names|
  {
    var k := |names| - 1;
    if i == k {
      assert names[..i] + names[i + 1..] == names[..k];
    } else {
      SumRemove(names[..k], i, f);
      var shorter := names[..i] + names[i + 1..];
      assert shorter[..|shorter| - 1] == names[..k][..i] + names[..k][i + 1..];
      assert shorter[|shorter| - 1] == names[k];
    }
  }

  lemma WithoutLast(a: seq<string>, b: seq<string>, i: nat)
    requires Distinct(a) && Distinct(b) && a != [] && i < |b| && b[i] == a[|a| - 1]
    ensures var rest := b[..i] + b[i + 1..];
            Distinct(rest) && forall n :: n in rest <==> n in b && n != b[i]
    ensures forall n :: n in a[..|a| - 1] <==> n in a && n != b[i]
  {
    var rest := b[..i] + b[i + 1..];
    forall n | n in b && n != b[i] ensures n in rest {
      var j :| 0 <= j < |b| && b[j] == n;
      assert n == if j < i then rest[j] else rest[j - 1];
    }
    forall n | n in a && n != b[i] ensures n in a[..|a| - 1] {
      var j :| 0 <= j < |a| && a[j] == n;
      assert n == a[..|a| - 1][j];
    }
  }

  lemma HasMember(names: seq<string>)
    requires names != []
    ensures exists n :: n in names
  {
    assert names[0] in names;
  }

  /** A sum over distinct names does not depend on their order. */
  lemma {:induction false} SumReordered(a: seq<string>, b: seq<string>, f: string -> real)
    requires Distinct(a) && Distinct(b) && forall n :: n in a <==> n in b
    ensures SumOver(a, f) == SumOver(b, f)
    decreases |a|
  {
    if a == [] {
      if b != [] {
        HasMember(b);
      }
    } else {
      var last := a[|a| - 1];
      assert last in a;
      var i :| 0 <= i < |b| && b[i] == last;
      WithoutLast(a, b, i);
      SumReordered(a[..|a| - 1], b[..i] + b[i + 1..], f);
      SumRemove(b, i, f);
    }
  }

  /** Names outside b add nothing, so the sum over a is at most the sum over b. */
  lemma {:induction false} SumWithin(a: seq<string>, b: seq<string>, f: string -> real)
    requires Distinct(a) && Distinct(b)
    requires forall n :: f(n) >= 0.0 && (n !in b ==> f(n) == 0.0)
    ensures SumOver(a, f) <= SumOver(b, f)
    decreases |a|
  {
    if a == [] {
      SumNonNegative(b, f);
    } else {
      var last, k := a[|a| - 1], |a| - 1;
      if last in b {
        var i :| 0 <= i < |b| && b[i] == last;
        WithoutLast(a, b, i);
        var rest := b[..i] + b[i + 1..];
        var g := n => if n == last then 0.0 else f(n);
        SumSame(a[..k], f, g);
        SumSame(rest, f, g);
        SumWithin(a[..k], rest, g);
        SumRemove(b, i, f);
      } else {
        SumWithin(a[..k], b, f);
      }
    }
  }

  // ----- By service and overall -----

  function PerService(previous: Sample, current: Sample, c: Counter, names: seq<string>): string -> real
    requires |previous.names| == |previous.pods| && |current.names| == |current.pods|
  {
    s => SumOver(names, Usage(previous, current, c, Some(s)))
  }

  function OnePod(previous: Sample, current: Sample, c: Counter, name: string): string -> real
    requires |previous.names| == |previous.pods| && |current.names| == |current.pods|
  {
    s => UsedBy(previous, current, c, Some(s), name)
  }

  lemma OneMorePod(services: seq<string>, previous: Sample, current: Sample, c: Counter, names: seq<string>)
    requires |previous.names| == |previous.pods| && |current.names| == |current.pods| && names != []
    ensures SumOver(services, PerService(previous, current, c, names))
         == SumOver(services, PerService(previous, current, c, names[..|names| - 1]))
          + SumOver(services, OnePod(previous, current, c, names[|names| - 1]))
  {
    SumDifference(services, PerService(previous, current, c, names),
        PerService(previous, current, c, names[..|names| - 1]),
                  OnePod(previous, current, c, names[|names| - 1]));
  }

  /** One pod's usage belongs to exactly one of the services. */
  lemma PodHasOneService(services: seq<string>, previous: Sample, current: Sample, c: Counter, name: string)
    requires ValidSample(previous) && ValidSample(current) && Distinct(services)
    requires PodAt(previous, name).Some? && PodAt(current, name).Some? ==>
        PodAt(current, name).value.service in services
    ensures SumOver(services, OnePod(previous, current, c, name)) == UsedBy(previous, current, c, None, name)
  {
    var pod := PodAt(current, name);
    SumSingle(services, if pod.Some? then pod.value.service else name, OnePod(previous, current, c, name));
  }

  lemma {:induction false} IntervalByService(services: seq<string>, previous: Sample, current: Sample, c: Counter,
      names: seq<string>)
    requires ValidSample(previous) && ValidSample(current) && Distinct(services)
    requires forall name :: name in names && PodAt(previous, name).Some? && PodAt(current, name).Some? ==>
      PodAt(current, name).value.service in services
    ensures SumOver(services, PerService(previous, current, c, names))
        == SumOver(names, Usage(previous, current, c, None))
    decreases |names|
  {
    if names == [] {
      SumSingle(services, "", PerService(previous, current, c, []));
    } else {
      var k := |names| - 1;
      IntervalByService(services, previous, current, c, names[..k]);
      PodHasOneService(services, previous, current, c, names[k]);
      OneMorePod(services, previous, current, c, names);
    }
  }

  ghost function TotalsBy(samples: seq<Sample>, c: Counter): string -> real
    requires ValidSamples(samples)
  {
    s => Total(samples, c, Some(s))
  }

  /** Conservation: what the services used adds up to what was used overall, for every counter. */
  lemma {:induction false} ServicesAddUp(services: seq<string>, samples: seq<Sample>, c: Counter)
    requires ValidSamples(samples) && Distinct(services) && CoversAll(services, samples)
    ensures SumOver(services, TotalsBy(samples, c)) == Total(samples, c, None)
    decreases |samples|
  {
    var n := |samples|;
    if n < 2 {
      SumSingle(services, "", TotalsBy(samples, c));
    } else {
      CoversFewer(services, samples);
      ServicesAddUp(services, samples[..n - 1], c);
      LastIntervalByService(services, samples[n - 2], samples[n - 1], c);
      OneMoreInterval(services, samples, c);
    }
  }

  lemma OneMoreInterval(services: seq<string>, samples: seq<Sample>, c: Counter)
    requires ValidSamples(samples) && |samples| >= 2
    ensures SumOver(services, TotalsBy(samples, c))
         == SumOver(services, TotalsBy(samples[..|samples| - 1], c))
          + SumOver(services, IntervalBy(samples[|samples| - 2], samples[|samples| - 1], c))
  {
    var n := |samples|;
    SumDifference(services, TotalsBy(samples, c), TotalsBy(samples[..n - 1], c),
        IntervalBy(samples[n - 2], samples[n - 1], c));
  }

  lemma CoversFewer(services: seq<string>, samples: seq<Sample>)
    requires ValidSamples(samples) && |samples| >= 2 && CoversAll(services, samples)
    ensures CoversAll(services, samples[..|samples| - 1])
    ensures Covers(services, samples[|samples| - 2], samples[|samples| - 1], |samples[|samples| - 1].names|)
  {
  }

  function IntervalBy(previous: Sample, current: Sample, c: Counter): string -> real
    requires |previous.names| == |previous.pods| && |current.names| == |current.pods|
  {
    s => Interval(previous, current, c, Some(s))
  }

  lemma LastIntervalByService(services: seq<string>, previous: Sample, current: Sample, c: Counter)
    requires ValidSample(previous) && ValidSample(current) && Distinct(services)
    requires Covers(services, previous, current, |current.names|)
    ensures SumOver(services, IntervalBy(previous, current, c)) == Interval(previous, current, c, None)
  {
    if current.timestamp - previous.timestamp <= 0.0 {
      SumSingle(services, "", IntervalBy(previous, current, c));
    } else {
      IntervalByService(services, previous, current, c, current.names);
      SumSame(services, IntervalBy(previous, current, c), PerService(previous, current, c, current.names));
    }
  }

  lemma {:induction false} NeverNegative(samples: seq<Sample>, c: Counter, service: Option<string>)
    requires ValidSamples(samples)
    ensures Total(samples, c, service) >= 0.0
    decreases |samples|
  {
    var n := |samples|;
    if n >= 2 {
      var previous, current := samples[n - 2], samples[n - 1];
      NeverNegative(samples[..n - 1], c, service);
      if current.timestamp - previous.timestamp > 0.0 {
        forall name | name in current.names ensures Usage(previous, current, c, service)(name) >= 0.0 {
          UsedNonNegative(previous, current, c, service, name);
        }
        SumNonNegative(current.names, Usage(previous, current, c, service));
      }
    }
  }

  lemma UsedNonNegative(previous: Sample, current: Sample, c: Counter, service: Option<string>, name: string)
    requires ValidSample(previous) && ValidSample(current) && current.timestamp > previous.timestamp
    ensures UsedBy(previous, current, c, service, name) >= 0.0
  {
    var before, after := PodAt(previous, name), PodAt(current, name);
    if before.Some? && after.Some? {
      assert before.value.memory >= 0.0 && after.value.memory >= 0.0;
      AreaNonNegative(current.timestamp - previous.timestamp, before.value.memory, after.value.memory);
    }
  }

  // ----- Telescoping -----

  /** What a counter shows. */
  function Reading(pod: Pod, c: Counter): real {
    match c
    case Cpu => pod.cpu
    case Received => pod.received
    case Transmitted => pod.transmitted
    case Periods => pod.periods
    case ThrottledPeriods => pod.throttledPeriods
    case ThrottledSeconds => pod.throttledSeconds
    case DiskOperations => OrZero(pod.diskOperations)
    case DiskLatencyOperations => if pod.diskWeighted.Some? then OrZero(pod.diskOperations) else 0.0
    case DiskSeconds => pod.diskSeconds
    case DiskWeighted => if pod.diskOperations.Some? then OrZero(pod.diskWeighted) else 0.0
    case MemorySeconds => 0.0
  }

  function ReadingsOf(sample: Sample, c: Counter): string -> real
    requires |sample.names| == |sample.pods|
  {
    name => var pod := PodAt(sample, name); if pod.Some? then Reading(pod.value, c) else 0.0
  }

  function Level(sample: Sample, c: Counter): real
    requires |sample.names| == |sample.pods|
  {
    SumOver(sample.names, ReadingsOf(sample, c))
  }

  ghost predicate SamePods(previous: Sample, current: Sample) {
    forall name :: name in previous.names <==> name in current.names
  }

  /** No counter of a pod goes back, and a pod keeps reporting what it reported. */
  ghost predicate PodMonotone(previous: Sample, current: Sample, name: string)
    requires ValidSample(previous) && ValidSample(current)
  {
    var before, after := PodAt(previous, name), PodAt(current, name);
    before.Some? && after.Some? ==>
      && (before.value.diskOperations.Some? <==> after.value.diskOperations.Some?)
      && (before.value.diskWeighted.Some? <==> after.value.diskWeighted.Some?)
      && forall c :: Reading(before.value, c) <= Reading(after.value, c)
  }

  ghost predicate Follows(previous: Sample, current: Sample)
    requires ValidSample(previous) && ValidSample(current)
  {
    && previous.timestamp < current.timestamp && SamePods(previous, current)
    && forall name :: name in current.names ==> PodMonotone(previous, current, name)
  }

  lemma UsedIsDifference(previous: Sample, current: Sample, c: Counter, name: string)
    requires ValidSample(previous) && ValidSample(current) && c != MemorySeconds
    requires name in previous.names && name in current.names && PodMonotone(previous, current, name)
    ensures UsedBy(previous, current, c, None, name) == ReadingsOf(current, c)(name) - ReadingsOf(previous, c)(name)
  {
    FoundIffIn(previous.names, name);
    FoundIffIn(current.names, name);
    var before, after := PodAt(previous, name).value, PodAt(current, name).value;
    assert Reading(before, c) <= Reading(after, c);
    assert Reading(before, DiskOperations) <= Reading(after, DiskOperations);
    assert Reading(before, DiskWeighted) <= Reading(after, DiskWeighted);
  }

  lemma IntervalIsDifference(previous: Sample, current: Sample, c: Counter)
    requires ValidSample(previous) && ValidSample(current) && c != MemorySeconds && Follows(previous, current)
    ensures Interval(previous, current, c, None) == Level(current, c) - Level(previous, c)
  {
    forall name | name in current.names
      ensures Usage(previous, current, c, None)(name) == ReadingsOf(current, c)(name) - ReadingsOf(previous, c)(name)
    {
      assert PodMonotone(previous, current, name);
      UsedIsDifference(previous, current, c, name);
    }
    SumDifference(current.names, ReadingsOf(current, c), ReadingsOf(previous, c), Usage(previous, current, c, None));
    SumReordered(current.names, previous.names, ReadingsOf(previous, c));
  }

  /** With the same pods in every sample and counters that never go back, the total of a counter is
      its last level less its first. */
  lemma {:induction false} TotalsTelescope(samples: seq<Sample>, c: Counter)
    requires ValidSamples(samples) && samples != [] && c != MemorySeconds
    requires forall i :: 1 <= i < |samples| ==> Follows(samples[i - 1], samples[i])
    ensures Total(samples, c, None) == Level(samples[|samples| - 1], c) - Level(samples[0], c)
    decreases |samples|
  {
    var n := |samples|;
    if n >= 2 {
      TotalsTelescope(samples[..n - 1], c);
      IntervalIsDifference(samples[n - 2], samples[n - 1], c);
    }
  }

  // ----- Memory -----

  function Middle(previous: Sample, current: Sample): string -> real
    requires |previous.names| == |previous.pods| && |current.names| == |current.pods|
  {
    name => Area(current.timestamp - previous.timestamp, MemoryOf(previous, name), MemoryOf(current, name))
  }

  lemma NonNegativeMemory(sample: Sample, name: string)
    requires ValidSample(sample)
    ensures MemoryOf(sample, name) >= 0.0
  {
  }

  lemma MemoryUsed(previous: Sample, current: Sample, name: string)
    requires ValidSample(previous) && ValidSample(current)
    requires PodAt(previous, name).Some? && PodAt(current, name).Some?
    ensures UsedBy(previous, current, MemorySeconds, None, name)
         == Area(current.timestamp - previous.timestamp, MemoryOf(previous, name), MemoryOf(current, name))
  {
    var before, after := PodAt(previous, name).value, PodAt(current, name).value;
    var used := Used(before, after, current.timestamp - previous.timestamp);
    assert used.memorySeconds == Area(current.timestamp - previous.timestamp, before.memory, after.memory);
  }

  lemma NotUsed(previous: Sample, current: Sample, c: Counter, name: string)
    requires ValidSample(previous) && ValidSample(current)
    requires PodAt(previous, name).None? || PodAt(current, name).None?
    ensures UsedBy(previous, current, c, None, name) == 0.0
  {
  }

  lemma MiddleNonNegative(previous: Sample, current: Sample, name: string)
    requires ValidSample(previous) && ValidSample(current) && previous.timestamp < current.timestamp
    ensures Middle(previous, current)(name) >= 0.0
  {
    var seconds, before, after :=
        current.timestamp - previous.timestamp, MemoryOf(previous, name), MemoryOf(current, name);
    NonNegativeMemory(previous, name);
    NonNegativeMemory(current, name);
    assert Middle(previous, current)(name) == Area(seconds, before, after);
    AreaNonNegative(seconds, before, after);
  }

  lemma MiddleIs(previous: Sample, current: Sample, name: string)
    requires ValidSample(previous) && ValidSample(current) && previous.timestamp < current.timestamp
    ensures Usage(previous, current, MemorySeconds, None)(name) <= Middle(previous, current)(name)
    ensures name in previous.names && name in current.names ==>
      Usage(previous, current, MemorySeconds, None)(name) == Middle(previous, current)(name)
  {
    FoundIffIn(previous.names, name);
    FoundIffIn(current.names, name);
    if PodAt(previous, name).Some? && PodAt(current, name).Some? {
      MemoryUsed(previous, current, name);
    } else {
      NotUsed(previous, current, MemorySeconds, name);
      MiddleNonNegative(previous, current, name);
    }
  }

  /** What the pods of the current sample had before is at most what all pods had before. */
  lemma MemoryBefore(previous: Sample, current: Sample)
    requires ValidSample(previous) && ValidSample(current)
    ensures SumOver(current.names, Memories(previous)) <= Memory(previous)
    ensures SamePods(previous, current) ==> SumOver(current.names, Memories(previous)) == Memory(previous)
  {
    forall name ensures MemoryOf(previous, name) >= 0.0 && (name !in previous.names ==>
        MemoryOf(previous, name) == 0.0) {
      FoundIffIn(previous.names, name);
    }
    SumWithin(current.names, previous.names, Memories(previous));
    if SamePods(previous, current) {
      SumReordered(current.names, previous.names, Memories(previous));
    }
  }

  lemma UsedAtMostMiddle(previous: Sample, current: Sample)
    requires ValidSample(previous) && ValidSample(current) && previous.timestamp < current.timestamp
    ensures Interval(previous, current, MemorySeconds, None) <= SumOver(current.names, Middle(previous, current))
    ensures SamePods(previous, current) ==>
      Interval(previous, current, MemorySeconds, None) == SumOver(current.names, Middle(previous, current))
  {
    var used, middle := Usage(previous, current, MemorySeconds, None), Middle(previous, current);
    forall name
      ensures used(name) <= middle(name) && (name in previous.names && name in current.names ==>
          used(name) == middle(name))
    {
      MiddleIs(previous, current, name);
    }
    SumAtMost(current.names, used, middle);
    if SamePods(previous, current) {
      SumSame(current.names, used, middle);
    }
  }

  lemma IntervalMemory(previous: Sample, current: Sample)
    requires ValidSample(previous) && ValidSample(current)
    ensures Interval(previous, current, MemorySeconds, None) <= Trapezoid(previous, current)
    ensures SamePods(previous, current) ==>
        Interval(previous, current, MemorySeconds, None) == Trapezoid(previous, current)
  {
    var seconds := current.timestamp - previous.timestamp;
    if seconds > 0.0 {
      UsedAtMostMiddle(previous, current);
      SumAreas(current.names, seconds, Memories(previous), Memories(current), Middle(previous, current));
      MemoryBefore(previous, current);
      AreaMonotone(seconds, SumOver(current.names, Memories(previous)), Memory(previous), Memory(current));
    }
  }

  /** What pods that both ends of an interval have used is at most the overall trapezoid, which also
      counts pods that only one end has; with the same pods throughout the two are equal. */
  lemma {:induction false} PodMemoryIsBounded(samples: seq<Sample>)
    requires ValidSamples(samples)
    ensures Total(samples, MemorySeconds, None) <= MemoryTotal(samples)
    ensures (forall i :: 1 <= i < |samples| ==> SamePods(samples[i - 1], samples[i])) ==>
      Total(samples, MemorySeconds, None) == MemoryTotal(samples)
    decreases |samples|
  {
    var n := |samples|;
    if n >= 2 {
      PodMemoryIsBounded(samples[..n - 1]);
      IntervalMemory(samples[n - 2], samples[n - 1]);
    }
  }

  /** What a summary charges its services with, for one counter. */
  function Charged(services: ByService, c: Counter): string -> real {
    s => EntryOf(services, s).At(c)
  }

  /** The entries of a summary add up to its overall totals, and the memory the services are charged
      with to at most the overall memory, with equality for the same pods throughout. */
  lemma ServiceMemoryIsBounded(samples: seq<Sample>, totals: Amounts, services: ByService)
    requires ValidSamples(samples) && Accounts(samples, totals, services)
    ensures forall c :: SumOver(ServiceNames(services), Charged(services, c)) == totals.At(c)
    ensures SumOver(ServiceNames(services), Charged(services, MemorySeconds)) <= MemoryTotal(samples)
    ensures (forall i :: 1 <= i < |samples| ==> SamePods(samples[i - 1], samples[i])) ==>
      SumOver(ServiceNames(services), Charged(services, MemorySeconds)) == MemoryTotal(samples)
  {
    forall c
      ensures SumOver(ServiceNames(services), Charged(services, c)) == totals.At(c) == Total(samples, c, None)
    {
      SumSame(ServiceNames(services), Charged(services, c), TotalsBy(samples, c));
      ServicesAddUp(ServiceNames(services), samples, c);
    }
    assert SumOver(ServiceNames(services), Charged(services, MemorySeconds)) == Total(samples, MemorySeconds, None);
    PodMemoryIsBounded(samples);
  }

  // ----- Counters and memory, apart from how they are computed -----

  /** Disk latency is only counted while both of its counters are reported at both ends. */
  predicate CountsBetween(before: Pod, after: Pod, c: Counter) {
    c in {DiskLatencyOperations, DiskWeighted} ==>
      && before.diskOperations.Some? && after.diskOperations.Some?
      && before.diskWeighted.Some? && after.diskWeighted.Some?
  }

  /** A counter that went up adds its rise, and one that went back, as after a restart, adds nothing. */
  lemma UsedIsRise(before: Pod, after: Pod, seconds: real, c: Counter)
    requires c != MemorySeconds
    ensures var rise := Reading(after, c) - Reading(before, c);
            Used(before, after, seconds).At(c) == if CountsBetween(before, after, c) && rise > 0.0 then rise else 0.0
  {
  }

  /** Constant memory takes its level times the time. */
  lemma ConstantArea(seconds: real, level: real)
    ensures Area(seconds, level, level) == level * seconds
  {
  }

  /** The area under memory that grows linearly is that of its parts: `middle` lies on the line from
      `before` to `after`. */
  lemma AreaJoins(first: real, second: real, before: real, middle: real, after: real)
    requires middle * (first + second) == before * second + after * first
    ensures Area(first, before, middle) + Area(second, middle, after) == Area(first + second, before, after)
  {
    var left := before * first + middle * first + middle * second + after * second;
    assert Area(first, before, middle) + Area(second, middle, after) == left / 2.0;
    assert middle * (first + second) == middle * first + middle * second;
    assert (before + after) * (first + second) == before * first + before * second + after * first + after * second;
  }

  /** The memory of all pods together grows linearly in time. */
  ghost predicate LinearMemory(samples: seq<Sample>, slope: real)
    requires ValidSamples(samples)
  {
    forall i :: 0 <= i < |samples| ==>
      Memory(samples[i]) == Memory(samples[0]) + slope * (samples[i].timestamp - samples[0].timestamp)
  }

  lemma OnLine(base: real, slope: real, first: real, second: real)
    ensures (base + slope * first) * (first + second) == base * second + (base + slope * (first + second)) * first
  {
    assert slope * (first + second) == slope * first + slope * second;
    assert (base + slope * first) * (first + second)
        == base * first + base * second + slope * first * first + slope * first * second;
    assert (base + slope * first + slope * second) * first
        == base * first + slope * first * first + slope * second * first;
    assert slope * first * second == slope * second * first;
  }

  /** Two pieces of a line. */
  lemma LineJoins(base: real, slope: real, first: real, second: real, middle: real, after: real)
    requires middle == base + slope * first && after == base + slope * (first + second)
    ensures Area(first, base, middle) + Area(second, middle, after) == Area(first + second, base, after)
  {
    OnLine(base, slope, first, second);
    AreaJoins(first, second, base, middle, after);
  }

  /** The area up to sample i - 1 and the one from there to sample i join to the area up to sample i. */
  ghost predicate Joins(samples: seq<Sample>, i: nat)
    requires ValidSamples(samples) && 0 < i < |samples|
  {
    Area(samples[i - 1].timestamp - samples[0].timestamp, Memory(samples[0]), Memory(samples[i - 1]))
    + Area(samples[i].timestamp - samples[i - 1].timestamp, Memory(samples[i - 1]), Memory(samples[i]))
    == Area(samples[i].timestamp - samples[0].timestamp, Memory(samples[0]), Memory(samples[i]))
  }

  ghost predicate AllJoins(samples: seq<Sample>)
    requires ValidSamples(samples)
  {
    forall i {:trigger Joins(samples, i)} :: 1 <= i < |samples| ==> Joins(samples, i)
  }

  lemma LinearJoins(samples: seq<Sample>, slope: real, i: nat)
    requires ValidSamples(samples) && 0 < i < |samples| && LinearMemory(samples, slope)
    ensures Joins(samples, i)
  {
    var start, now, next := samples[0].timestamp, samples[i - 1].timestamp, samples[i].timestamp;
    assert (now - start) + (next - now) == next - start;
    LineJoins(Memory(samples[0]), slope, now - start, next - now, Memory(samples[i - 1]), Memory(samples[i]));
  }

  lemma AllJoin(samples: seq<Sample>, slope: real)
    requires ValidSamples(samples) && LinearMemory(samples, slope)
    ensures AllJoins(samples)
  {
    forall i | 1 <= i < |samples|
      ensures Joins(samples, i)
    {
      LinearJoins(samples, slope, i);
    }
  }

  lemma {:induction false} JoinedArea(samples: seq<Sample>, n: nat)
    requires ValidSamples(samples) && n < |samples|
    requires forall i :: 1 <= i < |samples| ==> samples[i - 1].timestamp < samples[i].timestamp
    requires AllJoins(samples)
    ensures MemoryTotal(samples[..n + 1])
         == Area(samples[n].timestamp - samples[0].timestamp, Memory(samples[0]), Memory(samples[n]))
  {
    if n == 0 {
      NoArea(Memory(samples[0]));
    } else {
      JoinedArea(samples, n - 1);
      assert Joins(samples, n);
      assert samples[..n + 1][..n] == samples[..n];
    }
  }

  lemma NoArea(level: real)
    ensures Area(0.0, level, level) == 0.0
  {
  }

  lemma JoinedEnds(samples: seq<Sample>)
    requires ValidSamples(samples) && |samples| >= 2
    requires forall i :: 1 <= i < |samples| ==> samples[i - 1].timestamp < samples[i].timestamp
    requires AllJoins(samples)
    ensures MemoryTotal(samples) == MemoryTotal([samples[0], samples[|samples| - 1]])
  {
    var n := |samples| - 1;
    JoinedArea(samples, n);
    assert samples[..n + 1] == samples;
    TimeGrows(samples, n);
    TwoSamples(samples[0], samples[n]);
  }

  lemma {:induction false} TimeGrows(samples: seq<Sample>, n: nat)
    requires 0 < n < |samples|
    requires forall i :: 1 <= i < |samples| ==> samples[i - 1].timestamp < samples[i].timestamp
    ensures samples[0].timestamp < samples[n].timestamp
  {
    if n > 1 {
      TimeGrows(samples, n - 1);
    }
  }

  /** Two samples: the mean of their levels times the time between them. */
  lemma TwoSamples(first: Sample, last: Sample)
    requires ValidSample(first) && ValidSample(last) && first.timestamp < last.timestamp
    ensures MemoryTotal([first, last]) == Area(last.timestamp - first.timestamp, Memory(first), Memory(last))
    ensures MemoryTotal([first, last]) * 2.0 == (Memory(first) + Memory(last)) * (last.timestamp - first.timestamp)
  {
    assert [first, last][..1] == [first];
    assert MemoryTotal([first]) == 0.0;
  }

  /** For memory that changes linearly the sampled byte-seconds are exact: however often it is sampled,
      the total is that of the first and the last sample alone. */
  lemma LinearMemoryIsExact(samples: seq<Sample>, slope: real)
    requires ValidSamples(samples) && |samples| >= 2 && LinearMemory(samples, slope)
    requires forall i :: 1 <= i < |samples| ==> samples[i - 1].timestamp < samples[i].timestamp
    ensures MemoryTotal(samples) == MemoryTotal([samples[0], samples[|samples| - 1]])
  {
    AllJoin(samples, slope);
    JoinedEnds(samples);
  }
}
