/**
 The fault-tolerance run (FaultController and plan_from_args in
 src/benchmarkservice/fault_tolerance.py): deployments are scaled to zero and back one after the
 other, and whatever fails is rolled back.

 Every wait, log write and kubectl call may fail; which ones do is the run's environment. A failing
 kubectl call may still have taken effect.
 */
module FaultController {
  import opened Options

  datatype Fault = Fault(service: string, deployment: string, disableAt: int, enableAt: int, originalReplicas: int)

  datatype FaultPlan = FaultPlan(
    startupTime: int, disablePaymentTime: int, betweenTime: int, disableShippingTime: int, recoveryTime: int,
    stableSeconds: int, successFraction: real, pendingTolerance: int, faults: seq<Fault>)
  {
    function Duration(): int {
      startupTime + disablePaymentTime + betweenTime + disableShippingTime + recoveryTime
    }
  }

  /** One kubectl scale: what it asked for, when, whether it reported success and whether it took
      effect. */
  datatype ScaleCall = ScaleCall(deployment: string, replicas: int, at: int, ok: bool, took: bool)

  datatype Action = ScaleDownStarted | Disabled | ScaleUpStarted | Reenabled | Restored | RestoreFailed

  datatype Record = Record(deployment: string, action: Action)

  /** What the environment does at one interaction. */
  datatype Answer = Answer(ok: bool, hidden: bool, lag: nat)

  datatype Failure = Interrupted | ScaleFailed(deployment: string) | RecordFailed

  /** How the run ends: a plain return, the exception of the run itself, the restoration error with
      the deployments it names, or the exception of writing that error to the log. */
  datatype Outcome =
    | Completed
    | Raised(failure: Failure)
    | RestorationFailed(deployments: seq<string>)
    | RestoreRecordFailed(deployment: string)

  // ----- What a history of calls means -----

  /** The deployments that were asked to scale to zero and not yet brought back by a call that
      reported success. */
  function Disturbed(calls: seq<ScaleCall>): set<string>
    decreases |calls|
  {
    if calls == [] then {}
    else
      var last := calls[|calls| - 1];
      var before := Disturbed(calls[..|calls| - 1]);
      if last.replicas == 0 then before + {last.deployment}
      else if last.ok then before - {last.deployment}
      else before
  }

  /** What the last successful call for a deployment asked for. */
  function LastSuccess(calls: seq<ScaleCall>, deployment: string): Option<int>
    decreases |calls|
  {
    if calls == [] then None
    else
      var last := calls[|calls| - 1];
      if last.deployment == deployment && last.ok then Some(last.replicas)
      else LastSuccess(calls[..|calls| - 1], deployment)
  }

  /** The replicas a deployment really asks for after the calls. */
  function Replicas(initial: int, calls: seq<ScaleCall>, deployment: string): int
    decreases |calls|
  {
    if calls == [] then initial
    else
      var last := calls[|calls| - 1];
      if last.deployment == deployment && (last.ok || last.took) then last.replicas
      else Replicas(initial, calls[..|calls| - 1], deployment)
  }

  predicate Touched(calls: seq<ScaleCall>, deployment: string) {
    exists i :: 0 <= i < |calls| && calls[i].deployment == deployment
  }

  predicate AtMostOne(s: set<string>) {
    forall d, e :: d in s && e in s ==> d == e
  }

  /** A call some fault of the plan asks for: down, not before its time, or back to its replicas. */
  predicate Planned(faults: seq<Fault>, start: int, call: ScaleCall) {
    exists i :: 0 <= i < |faults| && call.deployment == faults[i].deployment
            && (call.replicas == faults[i].originalReplicas
                || (call.replicas == 0 && call.at >= start + faults[i].disableAt))
  }

  /** Every call is planned, at no moment were two deployments down, and only what is down is
      brought back. */
  predicate SafeHistory(faults: seq<Fault>, start: int, calls: seq<ScaleCall>)
    decreases |calls|
  {
    calls == [] ||
    var last := calls[|calls| - 1];
    var before := calls[..|calls| - 1];
    && SafeHistory(faults, start, before) && Planned(faults, start, last) && AtMostOne(Disturbed(calls))
    && (last.replicas != 0 ==> last.deployment in Disturbed(before))
  }

  predicate HaveReplicas(faults: seq<Fault>) {
    forall i :: 0 <= i < |faults| ==> faults[i].originalReplicas >= 1
  }

  predicate IsOriginal(faults: seq<Fault>, deployment: string, replicas: int) {
    exists i :: 0 <= i < |faults| && faults[i].deployment == deployment && faults[i].originalReplicas == replicas
  }

  /** The calls of a run without a failure: each fault down and up again, in order and on time. */
  predicate FollowsPlan(faults: seq<Fault>, start: int, calls: seq<ScaleCall>) {
    && |calls| == 2 * |faults|
    && forall i :: 0 <= i < |faults| ==>
        IsDown(faults[i], start, calls[2 * i]) && IsUp(faults[i], start, calls[2 * i + 1])
  }

  predicate IsDown(fault: Fault, start: int, call: ScaleCall) {
    call.deployment == fault.deployment && call.replicas == 0 && call.ok && call.at >= start + fault.disableAt
  }

  predicate IsUp(fault: Fault, start: int, call: ScaleCall) {
    call.deployment == fault.deployment && call.replicas == fault.originalReplicas && call.ok
        && call.at >= start + fault.enableAt
  }

  function LogOf(fault: Fault): seq<Record> {
    [Record(fault.deployment, ScaleDownStarted), Record(fault.deployment, Disabled),
     Record(fault.deployment, ScaleUpStarted), Record(fault.deployment, Reenabled)]
  }

  function PlanLog(faults: seq<Fault>): seq<Record>
    decreases |faults|
  {
    if faults == [] then [] else PlanLog(faults[..|faults| - 1]) + LogOf(faults[|faults| - 1])
  }

  // ----- The controller -----

  class FaultController {
    const faults: seq<Fault>
    const duration: int
    const start: int
    const answers: nat -> Answer

    var tick: nat
    var now: int
    var calls: seq<ScaleCall>
    var records: seq<Record>
    /** Insertion ordered, one entry a deployment. */
    var scaledDown: seq<Fault>
    /** The records whose write failed. */
    ghost var lost: set<Record>
    /** The interaction that answered the last kubectl call. */
    ghost var lastCall: nat

    constructor (plan: FaultPlan, start: int, now: int, answers: nat -> Answer)
      ensures faults == plan.faults && duration == plan.Duration() && this.start == start && this.answers == answers
      ensures this.now == now && calls == [] && records == [] && scaledDown == [] && lost == {} && tick == 0
    {
      faults, duration, this.start, this.answers := plan.faults, plan.Duration(), start, answers;
      tick, this.now, calls, records, scaledDown, lost, lastCall := 0, now, [], [], [], {}, 0;
    }

    /** _wait_until: an interruption is only seen while there is time left to wait. */
    method WaitUntil(deadline: int) returns (interrupted: bool)
      modifies this`tick, this`now
      ensures now >= old(now)
      ensures interrupted <==> old(now) < deadline && !answers(old(tick)).ok
      ensures tick == if old(now) < deadline then old(tick) + 1 else old(tick)
      ensures !interrupted ==> now >= deadline
    {
      interrupted := false;
      if now < deadline {
        var answer := answers(tick);
        interrupted := !answer.ok;
        now := if answer.ok then deadline + answer.lag else now + answer.lag;
        tick := tick + 1;
      }
    }

    method WriteRecord(fault: Fault, action: Action) returns (ok: bool)
      modifies this`tick, this`now, this`records, this`lost
      ensures now >= old(now)
      ensures ok == answers(old(tick)).ok && tick == old(tick) + 1
      ensures records == if ok then old(records) + [Record(fault.deployment, action)] else old(records)
      ensures lost == if ok then old(lost) else old(lost) + {Record(fault.deployment, action)}
    {
      var answer := answers(tick);
      ok := answer.ok;
      if ok {
        records := records + [Record(fault.deployment, action)];
      } else {
        lost := lost + {Record(fault.deployment, action)};
      }
      tick, now := tick + 1, now + answer.lag;
    }

    method Scale(deployment: string, replicas: int) returns (ok: bool, ghost call: ScaleCall)
      modifies this`tick, this`now, this`calls, this`lastCall
      ensures lastCall == old(tick)
      ensures now >= old(now)
      ensures ok == answers(old(tick)).ok && tick == old(tick) + 1
      ensures calls == old(calls) + [call]
      ensures call.deployment == deployment && call.replicas == replicas && call.at == old(now) && call.ok == ok
    {
      var answer := answers(tick);
      ok := answer.ok;
      var made := ScaleCall(deployment, replicas, now, ok, answer.ok || answer.hidden);
      call := made;
      calls := calls + [made];
      lastCall := tick;
      tick, now := tick + 1, now + answer.lag;
    }

    /** Nothing ever fails and nobody interrupts. */
    ghost predicate AllAnswered() {
      forall k :: answers(k).ok
    }

    /** The last call went as it was answered, after something else was answered. */
    ghost predicate Answered()
      reads this
    {
      && (scaledDown != [] ==> tick > 0)
      && (calls != [] ==> 0 < lastCall < tick && calls[|calls| - 1].ok == answers(lastCall).ok)
    }

    /** No record of a failed rollback has been lost. */
    ghost predicate NoneLost()
      reads this
    {
      forall d: string :: Record(d, RestoreFailed) !in lost
    }

    ghost predicate Sound()
      reads this
    {
      && HaveReplicas(faults) && SafeHistory(faults, start, calls) && Answered() && NoneLost()
      && |scaledDown| <= 1
      && (scaledDown == [] ==> Disturbed(calls) == {})
      && (scaledDown != [] ==> scaledDown[0] in faults && Disturbed(calls) == {scaledDown[0].deployment})
    }

    /** scaled_down[deployment] = fault, and then the scale to zero. */
    method ScaleDown(fault: Fault) returns (ok: bool)
      requires Sound() && scaledDown == [] && fault in faults && now >= start + fault.disableAt && tick > 0
      modifies this`tick, this`now, this`calls, this`lastCall, this`scaledDown
      ensures Sound() && scaledDown == [fault] && now >= old(now)
      ensures ok == answers(old(tick)).ok
      ensures |calls| == |old(calls)| + 1 && old(calls) <= calls
      ensures ok ==> IsDown(fault, start, calls[|calls| - 1])
    {
      scaledDown := PutFault(scaledDown, fault);
      assert scaledDown == [fault];
      ghost var down;
      ok, down := Scale(fault.deployment, 0);
      TakenDown(faults, start, old(calls), fault, down);
    }

    /** The scale to the original replicas, and then scaled_down.pop(deployment). */
    method ScaleUp(fault: Fault) returns (ok: bool)
      requires Sound() && scaledDown == [fault] && fault in faults && now >= start + fault.enableAt
      modifies this`tick, this`now, this`calls, this`lastCall, this`scaledDown
      ensures Sound() && now >= old(now)
      ensures ok == answers(old(tick)).ok && scaledDown == if ok then [] else [fault]
      ensures |calls| == |old(calls)| + 1 && old(calls) <= calls
      ensures ok ==> IsUp(fault, start, calls[|calls| - 1])
    {
      ghost var up;
      ok, up := Scale(fault.deployment, fault.originalReplicas);
      BroughtBack(faults, start, old(calls), fault, up);
      if ok {
        scaledDown := RemoveFault(scaledDown, fault.deployment);
        assert scaledDown == [];
      }
    }

    /** The first half of a pass of the loop over the faults. */
    method TakeDown(fault: Fault) returns (failure: Option<Failure>)
      requires Sound() && scaledDown == [] && fault in faults
      modifies this`tick, this`now, this`calls, this`lastCall, this`records, this`lost, this`scaledDown
      ensures Sound()
      ensures scaledDown == [] ==> failure.Some? && calls == old(calls)
      ensures old(now) >= start + fault.disableAt && answers(old(tick)).ok ==> calls != []
      ensures failure.None? ==> scaledDown == [fault]
      ensures AllAnswered() ==> failure.None?
      ensures failure.None? ==>
          records == old(records) + [Record(fault.deployment, ScaleDownStarted), Record(fault.deployment, Disabled)]
      ensures failure.None? ==>
          |calls| == |old(calls)| + 1 && old(calls) <= calls && IsDown(fault, start, calls[|calls| - 1])
    {
      var interrupted := WaitUntil(start + fault.disableAt);
      if interrupted { return Some(Interrupted); }
      var ok := WriteRecord(fault, ScaleDownStarted);
      if !ok { return Some(RecordFailed); }
      ok := ScaleDown(fault);
      if !ok { return Some(ScaleFailed(fault.deployment)); }
      ok := WriteRecord(fault, Disabled);
      if !ok { return Some(RecordFailed); }
      failure := None;
    }

    /** The second half. */
    method BringBack(fault: Fault) returns (failure: Option<Failure>)
      requires Sound() && scaledDown == [fault] && fault in faults
      modifies this`tick, this`now, this`calls, this`lastCall, this`records, this`lost, this`scaledDown
      ensures Sound()
      ensures scaledDown == [] ==> calls != [] && calls[|calls| - 1].ok
      ensures old(calls) <= calls
      ensures failure.None? ==> scaledDown == []
      ensures AllAnswered() ==> failure.None?
      ensures failure.None? ==>
          records == old(records) + [Record(fault.deployment, ScaleUpStarted), Record(fault.deployment, Reenabled)]
      ensures failure.None? ==> |calls| == |old(calls)| + 1 && IsUp(fault, start, calls[|calls| - 1])
    {
      var interrupted := WaitUntil(start + fault.enableAt);
      if interrupted { return Some(Interrupted); }
      var ok := WriteRecord(fault, ScaleUpStarted);
      if !ok { return Some(RecordFailed); }
      ok := ScaleUp(fault);
      if !ok { return Some(ScaleFailed(fault.deployment)); }
      ok := WriteRecord(fault, Reenabled);
      if !ok { return Some(RecordFailed); }
      failure := None;
    }

    /** The first n faults have been scaled down and up again, and logged. */
    ghost predicate Done(n: nat)
      requires n <= |faults|
      reads this
    {
      && FollowsPlan(faults[..n], start, calls) && records == PlanLog(faults[..n])
      && (calls != [] ==> calls[|calls| - 1].ok)
    }

    /** One pass of the loop. */
    method RunFault(i: nat) returns (failure: Option<Failure>)
      requires i < |faults| && Sound() && scaledDown == [] && Done(i)
      modifies this`tick, this`now, this`calls, this`lastCall, this`records, this`lost, this`scaledDown
      ensures Sound()
      ensures scaledDown == [] && calls != [] ==> calls[|calls| - 1].ok
      ensures AllAnswered() ==> failure.None?
      ensures failure.None? ==> scaledDown == [] && Done(i + 1)
      ensures old(calls) != [] || (old(now) >= start + faults[i].disableAt && answers(old(tick)).ok) ==> calls != []
    {
      ghost var before, log := calls, records;
      failure := TakeDown(faults[i]);
      if failure.Some? { return; }
      ghost var down := calls;
      failure := BringBack(faults[i]);
      if failure.Some? { return; }
      FollowsOneMore(faults, start, i, before, down, calls);
      LogOneMore(faults, i, log);
    }

    /** The body of the try statement. */
    method RunFaults() returns (failure: Option<Failure>)
      requires Sound() && calls == [] && records == [] && scaledDown == []
      modifies this`tick, this`now, this`calls, this`lastCall, this`records, this`lost, this`scaledDown
      ensures Sound()
      ensures AllAnswered() ==> failure.None?
      ensures failure.None? ==> scaledDown == [] && Done(|faults|) && now >= start + duration
      ensures faults != [] && old(now) >= start + faults[0].disableAt && answers(old(tick)).ok ==> calls != []
      ensures scaledDown == [] && calls != [] ==> calls[|calls| - 1].ok
    {
      for i := 0 to |faults|
        invariant Sound() && scaledDown == [] && Done(i)
        invariant i == 0 ==> now == old(now) && tick == old(tick)
      {
        failure := RunFault(i);
        if failure.Some? { return; }
      }
      var interrupted := WaitUntil(start + duration);
      failure := if interrupted then Some(Interrupted) else None;
    }

    /** The body of the loop of the finally clause: is the deployment added to the errors, and does
        an exception of the except clause escape? */
    method RestoreOne(fault: Fault) returns (named: bool, escaped: bool)
      requires SafeHistory(faults, start, calls) && HaveReplicas(faults) && fault in faults
      requires Disturbed(calls) == {fault.deployment} && Answered() && NoneLost() && tick > 0
      modifies this`tick, this`now, this`calls, this`lastCall, this`records, this`lost
      ensures SafeHistory(faults, start, calls) && old(calls) <= calls
      ensures calls != [] && calls[|calls| - 1].ok == answers(old(tick)).ok
      ensures Disturbed(calls) == if calls[|calls| - 1].ok then {} else {fault.deployment}
      ensures calls[|calls| - 1].deployment == fault.deployment && Answered()
      ensures forall d :: Record(d, RestoreFailed) in lost <==> escaped && d == fault.deployment
      ensures RestoreOutcome(fault.deployment, answers, old(tick)) ==
        if escaped then Some(RestoreRecordFailed(fault.deployment))
        else if named then Some(RestorationFailed([fault.deployment]))
        else None
    {
      named, escaped := false, false;
      var ok, up := Scale(fault.deployment, fault.originalReplicas);
      BroughtBack(faults, start, old(calls), fault, up);
      if ok {
        ok := WriteRecord(fault, Restored);
      }
      if !ok {
        named := true;
        ok := WriteRecord(fault, RestoreFailed);
        escaped := !ok;
      }
    }

    /** The finally clause. */
    method Restore() returns (outcome: Option<Outcome>)
      requires Sound()
      requires scaledDown == [] && calls != [] ==> calls[|calls| - 1].ok
      modifies this`tick, this`now, this`calls, this`lastCall, this`records, this`lost
      ensures SafeHistory(faults, start, calls)
      ensures old(scaledDown) == [] ==>
          outcome == None && calls == old(calls) && records == old(records) && now == old(now)
      ensures Excused(outcome) >= Disturbed(calls)
      ensures Disturbed(calls) == {} <==> calls != [] ==> calls[|calls| - 1].ok
      ensures Disturbed(calls) != {} ==> Disturbed(calls) == {calls[|calls| - 1].deployment}
      ensures Answered() && old(calls) <= calls
      ensures forall d :: Record(d, RestoreFailed) in lost <==> outcome == Some(RestoreRecordFailed(d))
      ensures scaledDown != [] ==> outcome == RestoreOutcome(scaledDown[0].deployment, answers, old(tick))
      ensures scaledDown != [] ==> calls != [] && calls[|calls| - 1].ok == answers(old(tick)).ok
    {
      if scaledDown == [] {
        return None;
      }
      var errors: seq<string> := [];
      var i := |scaledDown|;
      while i > 0
        invariant 0 <= i <= |scaledDown| && SafeHistory(faults, start, calls) && Answered() && old(calls) <= calls
        invariant i == |scaledDown| ==> calls == old(calls) && now == old(now) && tick == old(tick)
        invariant i == |scaledDown| ==> records == old(records) && lost == old(lost)
        invariant i < |scaledDown| ==> calls != [] && calls[|calls| - 1].deployment == scaledDown[0].deployment
        invariant NoneLost()
        invariant i < |scaledDown| ==> errors == [] || errors == [scaledDown[0].deployment]
        invariant tick > 0
        invariant i == |scaledDown| ==> errors == []
        invariant i < |scaledDown| ==> calls != [] && calls[|calls| - 1].ok == answers(old(tick)).ok
        invariant i < |scaledDown| ==>
            Disturbed(calls) == if calls[|calls| - 1].ok then {} else {scaledDown[0].deployment}
        invariant i < |scaledDown| ==> var outcome := if errors == [] then None else Some(RestorationFailed(errors));
                                       RestoreOutcome(scaledDown[0].deployment, answers, old(tick)) == outcome
      {
        i := i - 1;
        var named, escaped := RestoreOne(scaledDown[i]);
        if escaped {
          return Some(RestoreRecordFailed(scaledDown[i].deployment));
        }
        if named {
          errors := errors + [scaledDown[i].deployment];
          assert errors == [scaledDown[0].deployment];
        }
      }
      outcome := if errors != [] then Some(RestorationFailed(errors)) else None;
    }

    /** The whole run. Whatever fails, at most one deployment is down at a time, and on exit each
        one that was touched is back at its replicas, as of the last call that succeeded for it, or
        is named in the restoration error. The one exception: a deployment stays down and is not
        named exactly when the last scale, which was its, failed and so did the write of the record
        of that; that write's exception then replaces the restoration error. */
    method Call() returns (outcome: Outcome)
      requires HaveReplicas(faults) && calls == [] && records == [] && scaledDown == [] && lost == {}
      modifies this`tick, this`now, this`calls, this`lastCall, this`records, this`lost, this`scaledDown
      ensures SafeHistory(faults, start, calls)
      ensures forall d :: Touched(calls, d) && d !in Disturbed(calls) ==>
          LastSuccess(calls, d).Some? && IsOriginal(faults, d, LastSuccess(calls, d).value)
      ensures forall d :: d in Disturbed(calls) <==> LastScaleFailed(calls, d)
      ensures forall d :: outcome == RestoreRecordFailed(d) <==> Record(d, RestoreFailed) in lost
      ensures outcome.RestorationFailed? ==> |outcome.deployments| == 1
      ensures forall d :: d in Disturbed(calls) && d !in Named(outcome) <==>
          LastScaleFailed(calls, d) && Record(d, RestoreFailed) in lost
      ensures Answered()
      ensures outcome.RestorationFailed? ==> exists k :: k > 0 && answers(k).ok
      ensures faults != [] && old(now) >= start + faults[0].disableAt && answers(old(tick)).ok ==> calls != []
      ensures AllAnswered() ==> outcome.Completed?
      ensures outcome.Completed? ==>
          FollowsPlan(faults, start, calls) && records == PlanLog(faults) && now >= start + duration
    {
      EmptyIsSound(faults, start);
      assert faults[..|faults|] == faults;
      var failure := RunFaults();
      var restoration := Restore();
      outcome :=
        if restoration.Some? then restoration.value
        else if failure.Some? then Raised(failure.value)
        else Completed;
      forall d | Touched(calls, d) && d !in Disturbed(calls)
        ensures LastSuccess(calls, d).Some? && IsOriginal(faults, d, LastSuccess(calls, d).value)
      {
        RestoredIsOriginal(faults, start, calls, d);
      }
    }
  }

  /** What the rollback of one deployment ends in, by the answers to its interactions. */
  function RestoreOutcome(deployment: string, answers: nat -> Answer, tick: nat): Option<Outcome> {
    if answers(tick).ok && answers(tick + 1).ok then None
    else if answers(if answers(tick).ok then tick + 2 else tick + 1).ok then Some(RestorationFailed([deployment]))
    else Some(RestoreRecordFailed(deployment))
  }

  /** scaled_down[fault.deployment] = fault */
  function PutFault(scaledDown: seq<Fault>, fault: Fault): seq<Fault> {
    if scaledDown == [] then [fault]
    else if scaledDown[0].deployment == fault.deployment then [fault] + scaledDown[1..]
    else [scaledDown[0]] + PutFault(scaledDown[1..], fault)
  }

  /** scaled_down.pop(deployment, None) */
  function RemoveFault(scaledDown: seq<Fault>, deployment: string): seq<Fault> {
    if scaledDown == [] then []
    else if scaledDown[0].deployment == deployment then scaledDown[1..]
    else [scaledDown[0]] + RemoveFault(scaledDown[1..], deployment)
  }

  /** The deployments the restoration error names. */
  function Named(outcome: Outcome): set<string> {
    if outcome.RestorationFailed? then set d | d in outcome.deployments else {}
  }

  /** The last scale of all was one of `deployment`, and failed. */
  predicate LastScaleFailed(calls: seq<ScaleCall>, deployment: string) {
    calls != [] && !calls[|calls| - 1].ok && calls[|calls| - 1].deployment == deployment
  }

  /** A run in which a deployment stays down and no error names it: the time of the first fault has
      come, its first record is written, and nothing succeeds after that. */
  method UnnamedFailure(plan: FaultPlan, start: int, now: int, answers: nat -> Answer)
    returns (outcome: Outcome, calls: seq<ScaleCall>)
    requires HaveReplicas(plan.faults) && plan.faults != [] && now >= start + plan.faults[0].disableAt
    requires forall k: nat :: answers(k).ok <==> k == 0
    ensures outcome.RestoreRecordFailed? && Disturbed(calls) != {} && Named(outcome) == {}
  {
    var run := new FaultController(plan, start, now, answers);
    outcome := run.Call();
    calls := run.calls;
    assert LastScaleFailed(calls, calls[|calls| - 1].deployment);
  }

  /** The deployments an exit accounts for. */
  function Excused(outcome: Option<Outcome>): set<string> {
    match outcome
    case Some(RestorationFailed(deployments)) => set d | d in deployments
    case Some(RestoreRecordFailed(deployment)) => {deployment}
    case _ => {}
  }

  // ----- Lemmas -----

  lemma EmptyIsSound(faults: seq<Fault>, start: int)
    ensures SafeHistory(faults, start, []) && Disturbed([]) == {}
  {
  }

  lemma AppendCall(faults: seq<Fault>, start: int, calls: seq<ScaleCall>, call: ScaleCall)
    requires SafeHistory(faults, start, calls) && Planned(faults, start, call)
    requires if call.replicas == 0 then Disturbed(calls) <= {call.deployment} else call.deployment in Disturbed(calls)
    ensures SafeHistory(faults, start, calls + [call])
    ensures Disturbed(calls + [call]) ==
      if call.replicas == 0 then Disturbed(calls) + {call.deployment}
      else if call.ok then Disturbed(calls) - {call.deployment}
      else Disturbed(calls)
  {
    assert (calls + [call])[..|calls|] == calls;
  }

  lemma TakenDown(faults: seq<Fault>, start: int, calls: seq<ScaleCall>, fault: Fault, down: ScaleCall)
    requires SafeHistory(faults, start, calls) && Disturbed(calls) == {} && fault in faults
    requires IsDown(fault, start, down.(ok := true))
    ensures SafeHistory(faults, start, calls + [down]) && Disturbed(calls + [down]) == {fault.deployment}
  {
    AppendCall(faults, start, calls, down);
  }

  lemma BroughtBack(faults: seq<Fault>, start: int, calls: seq<ScaleCall>, fault: Fault, up: ScaleCall)
    requires SafeHistory(faults, start, calls) && Disturbed(calls) == {fault.deployment} && fault in faults
    requires up.deployment == fault.deployment && up.replicas == fault.originalReplicas != 0
    ensures SafeHistory(faults, start, calls + [up])
    ensures Disturbed(calls + [up]) == if up.ok then {} else {fault.deployment}
  {
    AppendCall(faults, start, calls, up);
  }

  lemma {:induction false} SafePrefix(faults: seq<Fault>, start: int, calls: seq<ScaleCall>, k: nat)
    requires SafeHistory(faults, start, calls) && k <= |calls|
    ensures SafeHistory(faults, start, calls[..k]) && AtMostOne(Disturbed(calls[..k]))
    decreases |calls|
  {
    if k == |calls| {
      assert calls[..k] == calls;
    } else {
      assert calls[..|calls| - 1][..k] == calls[..k];
      SafePrefix(faults, start, calls[..|calls| - 1], k);
    }
  }

  lemma FollowsOneMore(faults: seq<Fault>, start: int, i: nat, calls: seq<ScaleCall>, down: seq<ScaleCall>,
      up: seq<ScaleCall>)
    requires i < |faults| && FollowsPlan(faults[..i], start, calls)
    requires calls <= down <= up && |down| == |calls| + 1 && |up| == |calls| + 2
    requires IsDown(faults[i], start, down[|calls|]) && IsUp(faults[i], start, up[|calls| + 1])
    ensures FollowsPlan(faults[..i + 1], start, up)
  {
    forall j | 0 <= j < i + 1
      ensures IsDown(faults[..i + 1][j], start, up[2 * j]) && IsUp(faults[..i + 1][j], start, up[2 * j + 1])
    {
      if j < i {
        assert up[2 * j] == calls[2 * j] && up[2 * j + 1] == calls[2 * j + 1];
        assert faults[..i + 1][j] == faults[..i][j];
      } else {
        assert up[2 * i] == down[2 * i];
      }
    }
  }

  lemma LogOneMore(faults: seq<Fault>, i: nat, log: seq<Record>)
    requires i < |faults| && log == PlanLog(faults[..i])
    ensures var d := faults[i].deployment;
            log + [Record(d, ScaleDownStarted), Record(d, Disabled)] + [Record(d, ScaleUpStarted), Record(d, Reenabled)]
            == PlanLog(faults[..i + 1])
  {
    assert faults[..i + 1][..i] == faults[..i];
  }

  /** A touched deployment that is not disturbed was last set to its original replicas. */
  lemma {:induction false} RestoredIsOriginal(faults: seq<Fault>, start: int, calls: seq<ScaleCall>, d: string)
    requires SafeHistory(faults, start, calls)
    requires Touched(calls, d) && d !in Disturbed(calls)
    ensures LastSuccess(calls, d).Some? && IsOriginal(faults, d, LastSuccess(calls, d).value)
    decreases |calls|
  {
    var last := calls[|calls| - 1];
    var before := calls[..|calls| - 1];
    assert Planned(faults, start, last);
    if last.deployment != d {
      var i :| 0 <= i < |calls| && calls[i].deployment == d;
      assert before[i].deployment == d;
      SafePrefix(faults, start, calls, |calls| - 1);
      RestoredIsOriginal(faults, start, before, d);
    }
  }

  /** A deployment that is not disturbed really has its original replicas, even where failing calls
      took effect. */
  lemma {:induction false} UndisturbedIsIntact(faults: seq<Fault>, start: int, calls: seq<ScaleCall>, d: string,
      initial: int)
    requires SafeHistory(faults, start, calls)
    requires forall n :: IsOriginal(faults, d, n) ==> n == initial
    requires d !in Disturbed(calls)
    ensures Replicas(initial, calls, d) == initial
    decreases |calls|
  {
    if calls != [] {
      var last := calls[|calls| - 1];
      assert Planned(faults, start, last);
      if last.deployment == d {
        assert last.ok && last.replicas != 0;
        assert IsOriginal(faults, d, last.replicas);
      } else {
        SafePrefix(faults, start, calls, |calls| - 1);
        UndisturbedIsIntact(faults, start, calls[..|calls| - 1], d, initial);
      }
    }
  }

  // ----- The plan -----

  datatype Arguments = Arguments(
    startupTime: int, disablePaymentTime: int, betweenTime: int, disableShippingTime: int, recoveryTime: int,
    stableSeconds: int, successFraction: real, pendingTolerance: int, payment: string, shipping: string)

  datatype PlanError =
    | TooShort(field: string)
    | RecoveryTooShort
    | FractionOutOfRange
    | NegativeTolerance
    | SameDeployment
    | CannotScale(deployment: string)
    | NoReplicas(deployment: string)

  /** The deployments as kubectl shows them: may they be scaled, and their replicas if readable. */
  datatype Cluster = Cluster(scalable: string -> bool, replicas: string -> Option<int>)

  function CheckTimes(fields: seq<(string, int)>): Option<PlanError> {
    if fields == [] then None
    else if fields[0].1 < 1 then Some(TooShort(fields[0].0))
    else CheckTimes(fields[1..])
  }

  function Times(a: Arguments): seq<(string, int)> {
    [("startup_time", a.startupTime), ("disable_paymentservice_time", a.disablePaymentTime),
     ("between_disable_time", a.betweenTime), ("disable_shippingservice_time", a.disableShippingTime),
     ("recovery_time", a.recoveryTime), ("convergence_stable_seconds", a.stableSeconds)]
  }

  function CheckArguments(a: Arguments): Option<PlanError> {
    var times := CheckTimes(Times(a));
    if times.Some? then times
    else if a.recoveryTime < a.stableSeconds then Some(RecoveryTooShort)
    else if !(0.0 < a.successFraction <= 1.0) then Some(FractionOutOfRange)
    else if a.pendingTolerance < 0 then Some(NegativeTolerance)
    else if a.payment == a.shipping then Some(SameDeployment)
    else None
  }

  function CheckDeployments(a: Arguments, cluster: Cluster): Option<PlanError> {
    if !cluster.scalable(a.payment) then Some(CannotScale(a.payment))
    else if !cluster.scalable(a.shipping) then Some(CannotScale(a.shipping))
    else if cluster.replicas(a.payment).None? || cluster.replicas(a.payment).value < 1 then Some(NoReplicas(a.payment))
    else if cluster.replicas(a.shipping).None? || cluster.replicas(a.shipping).value < 1 then
      Some(NoReplicas(a.shipping))
    else None
  }

  function PlanFromArgs(a: Arguments, cluster: Cluster): Result<FaultPlan, PlanError> {
    if CheckArguments(a).Some? then Err(CheckArguments(a).value)
    else if CheckDeployments(a, cluster).Some? then Err(CheckDeployments(a, cluster).value)
    else
      var paymentDown := a.startupTime;
      var paymentUp := paymentDown + a.disablePaymentTime;
      var shippingDown := paymentUp + a.betweenTime;
      var shippingUp := shippingDown + a.disableShippingTime;
      Ok(FaultPlan(a.startupTime, a.disablePaymentTime, a.betweenTime, a.disableShippingTime, a.recoveryTime,
                   a.stableSeconds, a.successFraction, a.pendingTolerance,
                   [Fault("paymentservice", a.payment, paymentDown, paymentUp, cluster.replicas(a.payment).value),
                    Fault("shippingservice", a.shipping, shippingDown, shippingUp,
                        cluster.replicas(a.shipping).value)]))
  }

  /** The windows of an accepted plan are ordered and disjoint, the run ends with the whole recovery
      time, and every fault restores what the cluster had. */
  lemma TimelineIsOrdered(a: Arguments, cluster: Cluster)
    requires PlanFromArgs(a, cluster).Ok?
    ensures var plan := PlanFromArgs(a, cluster).value;
            && 0 < plan.faults[0].disableAt < plan.faults[0].enableAt
            && plan.faults[0].enableAt < plan.faults[1].disableAt < plan.faults[1].enableAt
            && plan.faults[1].enableAt + plan.recoveryTime == plan.Duration()
            && plan.recoveryTime >= plan.stableSeconds >= 1
            && plan.faults[0].deployment != plan.faults[1].deployment
    ensures var plan := PlanFromArgs(a, cluster).value;
            && |plan.faults| == 2
            && plan.faults[0].deployment == a.payment && plan.faults[1].deployment == a.shipping
            && plan.faults[0].disableAt == a.startupTime
            && plan.faults[0].enableAt - plan.faults[0].disableAt == a.disablePaymentTime
            && plan.faults[1].disableAt - plan.faults[0].enableAt == a.betweenTime
            && plan.faults[1].enableAt - plan.faults[1].disableAt == a.disableShippingTime
            && plan.recoveryTime == a.recoveryTime && plan.stableSeconds == a.stableSeconds
            && plan.successFraction == a.successFraction && plan.pendingTolerance == a.pendingTolerance
    ensures HaveReplicas(PlanFromArgs(a, cluster).value.faults)
    ensures forall d, n :: IsOriginal(PlanFromArgs(a, cluster).value.faults, d, n) ==> cluster.replicas(d) == Some(n)
  {
    TimesChecked(a);
  }

  lemma TimesChecked(a: Arguments)
    ensures CheckArguments(a).None? <==>
      && a.startupTime >= 1 && a.disablePaymentTime >= 1 && a.betweenTime >= 1 && a.disableShippingTime >= 1
      && a.recoveryTime >= a.stableSeconds >= 1 && 0.0 < a.successFraction <= 1.0 && a.pendingTolerance >= 0
      && a.payment != a.shipping
  {
    ChecksAll(Times(a));
    var fields := Times(a);
    assert fields[0].1 == a.startupTime && fields[1].1 == a.disablePaymentTime && fields[2].1 == a.betweenTime
        && fields[3].1 == a.disableShippingTime && fields[4].1 == a.recoveryTime && fields[5].1 == a.stableSeconds;
  }

  lemma {:induction false} ChecksAll(fields: seq<(string, int)>)
    ensures CheckTimes(fields).None? <==> forall i :: 0 <= i < |fields| ==> fields[i].1 >= 1
  {
    if fields != [] {
      ChecksAll(fields[1..]);
      assert forall i :: 0 < i < |fields| ==> fields[i] == fields[1..][i - 1];
    }
  }

  /** A deployment of the cluster differs from the replicas the plan was made with. */
  predicate Away(cluster: Cluster, calls: seq<ScaleCall>, d: string) {
    cluster.replicas(d).Some? && Replicas(cluster.replicas(d).value, calls, d) != cluster.replicas(d).value
  }

  lemma AwayIsDisturbed(a: Arguments, cluster: Cluster, start: int, calls: seq<ScaleCall>, d: string)
    requires PlanFromArgs(a, cluster).Ok? && SafeHistory(PlanFromArgs(a, cluster).value.faults, start, calls)
    requires Away(cluster, calls, d)
    ensures d in Disturbed(calls)
  {
    TimelineIsOrdered(a, cluster);
    if d !in Disturbed(calls) {
      UndisturbedIsIntact(PlanFromArgs(a, cluster).value.faults, start, calls, d, cluster.replicas(d).value);
    }
  }

  lemma OneAwayInPlannedRun(a: Arguments, cluster: Cluster, start: int, calls: seq<ScaleCall>, k: nat, d: string,
      e: string)
    requires PlanFromArgs(a, cluster).Ok? && k <= |calls|
    requires SafeHistory(PlanFromArgs(a, cluster).value.faults, start, calls)
    requires Away(cluster, calls[..k], d) && Away(cluster, calls[..k], e)
    ensures d == e
  {
    SafePrefix(PlanFromArgs(a, cluster).value.faults, start, calls, k);
    AwayIsDisturbed(a, cluster, start, calls[..k], d);
    AwayIsDisturbed(a, cluster, start, calls[..k], e);
  }

  /** The plan and then the run. At most one deployment of the cluster is away from the replicas the
      plan was made with, at any moment and whatever failing calls really did; at the end only the
      one whose last scale failed may be. */
  method RunPlan(a: Arguments, cluster: Cluster, start: int, now: int, answers: nat -> Answer)
    returns (result: Result<Outcome, PlanError>, calls: seq<ScaleCall>)
    ensures PlanFromArgs(a, cluster).Err? ==> result == Err(PlanFromArgs(a, cluster).error) && calls == []
    ensures PlanFromArgs(a, cluster).Ok? ==> result.Ok?
    ensures forall k, d, e :: 0 <= k <= |calls| && Away(cluster, calls[..k], d) && Away(cluster, calls[..k], e) ==>
        d == e
    ensures forall d :: Away(cluster, calls, d) ==> LastScaleFailed(calls, d)
  {
    var plan := PlanFromArgs(a, cluster);
    if plan.Err? {
      return Err(plan.error), [];
    }
    TimelineIsOrdered(a, cluster);
    var run := new FaultController(plan.value, start, now, answers);
    var outcome := run.Call();
    result, calls := Ok(outcome), run.calls;
    forall k, d, e | 0 <= k <= |calls| && Away(cluster, calls[..k], d) && Away(cluster, calls[..k], e)
      ensures d == e
    {
      OneAwayInPlannedRun(a, cluster, start, calls, k, d, e);
    }
    forall d | Away(cluster, calls, d)
      ensures LastScaleFailed(calls, d)
    {
      AwayIsDisturbed(a, cluster, start, calls, d);
    }
  }
}
