/**
 The benchmark run lease: one key that names the active run. API controllers acquire and release
 it (src/benchmarkservice/control.py), the run's Job renews and releases it
 (src/benchmarkservice/job.py).

 The decisions taken on a lease that was read are shared by the retry loops below and by the
 interleavings in LeaseRuns. The owner and updated_at fields are diagnostics and are left out.
 */
module RunLease {
  import opened Options
  import opened RevisionedStore

  datatype Lease = Lease(runId: string, until: real, released: bool)

  const MAX_ATTEMPTS := 12

  const LEASE_SECONDS := 90.0

  datatype TakeDecision = StillActive(runId: string) | TakeLease(lease: Lease)

  function DecideTake(entry: Option<Lease>, runId: string, now: real, duration: real): TakeDecision {
    if entry.Some? && entry.value.until > now then StillActive(entry.value.runId)
    else TakeLease(Lease(runId, now + duration, false))
  }

  datatype RenewDecision = NoLease | BelongsToAnother | AlreadyReleased | Renew(lease: Lease)

  /** A renewal does not look at the expiry, only at whose lease it is. */
  function DecideRenew(entry: Option<Lease>, runId: string, until: real): RenewDecision {
    match entry
    case None => NoLease
    case Some(lease) =>
      if lease.runId != runId then BelongsToAnother
      else if lease.released then AlreadyReleased
      else Renew(lease.(until := until))
  }

  datatype ReleaseDecision = NothingToRelease | Release(lease: Lease)

  function DecideRelease(entry: Option<Lease>, runId: string): ReleaseDecision {
    match entry
    case None => NothingToRelease
    case Some(lease) =>
      if lease.runId != runId then NothingToRelease else Release(lease.(until := 0.0, released := true))
  }

  // ----- What one write of each kind follows -----

  /** A lease taken over an absent or expired one, whichever reading of the clock it was taken at. */
  ghost predicate IsTakeAt(history: seq<Write<Lease>>, i: nat, runId: string, duration: real)
    requires i < |history|
  {
    && history[i].value.runId == runId && !history[i].value.released
    && (i > 0 ==> history[i - 1].value.until <= history[i].value.until - duration)
  }

  /** A renewal of an unreleased lease of the same run. */
  ghost predicate IsRenewalAt(history: seq<Write<Lease>>, i: nat, runId: string, until: real)
    requires i < |history|
  {
    && i > 0 && history[i - 1].value.runId == runId && !history[i - 1].value.released
    && history[i].value == Lease(runId, until, false)
  }

  /** A release of a lease of the same run. */
  ghost predicate IsReleaseAt(history: seq<Write<Lease>>, i: nat, runId: string)
    requires i < |history|
  {
    i > 0 && history[i - 1].value.runId == runId && history[i].value == Lease(runId, 0.0, true)
  }

  // ----- When calls have to fail, and when they may not -----

  predicate CanTake(history: seq<Write<Lease>>, now: real) {
    history == [] || history[|history| - 1].value.until <= now
  }

  predicate IsUnexpired(history: seq<Write<Lease>>, now: real) {
    history != [] && history[|history| - 1].value.until > now
  }

  /** The key names this run. */
  predicate IsStored(history: seq<Write<Lease>>, runId: string) {
    history != [] && history[|history| - 1].value.runId == runId
  }

  /** The lease is absent, another run's, or released. */
  predicate IsNotOurs(history: seq<Write<Lease>>, runId: string) {
    !IsStored(history, runId) || history[|history| - 1].value.released
  }

  datatype AcquireResult = Acquired(now: real) | RunConflict | StoreUnavailable

  /** _acquire_lease. The clock is read anew before each try; `clock(k)` is what the k-th reading
      gives and `network(k)` what happens to the requests of the k-th update. */
  method AcquireLease(key: Key<Lease>, me: nat, runId: string, duration: real,
                      clock: nat -> real, network: nat -> seq<Delivery>)
    returns (result: AcquireResult, ghost tries: nat)
    modifies key
    ensures tries <= MAX_ATTEMPTS && old(key.history) <= key.history
    ensures result.Acquired? ==>
              var n := |key.history| - 1;
              && |old(key.history)| <= n
              && key.history[n] == Write(me, n, Lease(runId, result.now + duration, false))
              && (n > 0 ==> key.history[n - 1].value.until <= result.now)
              && tries > 0 && clock(tries - 1) == result.now
    ensures forall i :: |old(key.history)| <= i < |key.history| && key.history[i].writer == me ==>
              IsTakeAt(key.history, i, runId, duration)
    ensures result.RunConflict? ==>
              || (tries == MAX_ATTEMPTS && |key.history| >= |old(key.history)| + MAX_ATTEMPTS)
              || IsUnexpired(key.history, clock(tries))
    ensures CanTake(old(key.history), clock(0)) && OnlyWrote(old(key.history), key.history, me)
              && (forall k: nat :: OneReply(network(k))) ==>
              result.Acquired?
    ensures !result.Acquired? && (forall k: nat :: ReplyLost !in network(k)) ==>
        WroteNothing(old(key.history), key.history, me)
  {
    tries := 0;
    for attempt := 0 to MAX_ATTEMPTS
      invariant tries == attempt && old(key.history) <= key.history
      invariant |key.history| >= |old(key.history)| + attempt
      invariant (forall k: nat :: OneReply(network(k))) ==>
          attempt == 0 || !OnlyWrote(old(key.history), key.history, me)
      invariant forall i :: |old(key.history)| <= i < |key.history| && key.history[i].writer == me ==>
                  IsTakeAt(key.history, i, runId, duration)
      invariant (forall k: nat :: ReplyLost !in network(k)) ==> WroteNothing(old(key.history), key.history, me)
    {
      var now := clock(attempt);
      key.OtherClients(me);
      var entry, revision := key.Get();
      var decision := DecideTake(entry, runId, now, duration);
      if decision.StillActive? {
        return RunConflict, tries;
      }
      var reply := key.UpdateWithRecovery(Write(me, revision, decision.lease), network(attempt));
      tries := tries + 1;
      if reply.Updated? {
        return Acquired(now), tries;
      }
      if reply.GaveUp? {
        return StoreUnavailable, tries;
      }
    }
    return RunConflict, tries;
  }

  datatype RenewResult = Renewed(until: real) | NotRenewed | RenewUnavailable

  /** renew_lease. The new expiry is computed once, before the first try. A successful renewal
      directly follows an unreleased lease of the same run. */
  method RenewLease(key: Key<Lease>, me: nat, runId: string, now: real, network: nat -> seq<Delivery>)
    returns (result: RenewResult)
    modifies key
    ensures old(key.history) <= key.history
    ensures forall i :: |old(key.history)| <= i < |key.history| && key.history[i].writer == me ==>
              IsRenewalAt(key.history, i, runId, now + LEASE_SECONDS)
    ensures result.Renewed? ==>
              var n := |key.history| - 1;
              && |old(key.history)| <= n && 0 < n
              && result.until == now + LEASE_SECONDS
              && !key.history[n - 1].value.released
              && key.history[n - 1].value.runId == runId
              && key.history[n] == Write(me, n, Lease(runId, result.until, false))
    ensures result.NotRenewed? ==>
              IsNotOurs(key.history, runId) || |key.history| >= |old(key.history)| + MAX_ATTEMPTS
    ensures !IsNotOurs(old(key.history), runId) && OnlyWrote(old(key.history), key.history, me)
              && (forall k: nat :: OneReply(network(k))) ==>
              result.Renewed?
    ensures !result.Renewed? && (forall k: nat :: ReplyLost !in network(k)) ==>
        WroteNothing(old(key.history), key.history, me)
  {
    var until := now + LEASE_SECONDS;
    for attempt := 0 to MAX_ATTEMPTS
      invariant old(key.history) <= key.history
      invariant |key.history| >= |old(key.history)| + attempt
      invariant (forall k: nat :: OneReply(network(k))) ==>
          attempt == 0 || !OnlyWrote(old(key.history), key.history, me)
      invariant forall i :: |old(key.history)| <= i < |key.history| && key.history[i].writer == me ==>
                  IsRenewalAt(key.history, i, runId, until)
      invariant (forall k: nat :: ReplyLost !in network(k)) ==> WroteNothing(old(key.history), key.history, me)
    {
      key.OtherClients(me);
      var entry, revision := key.Get();
      var decision := DecideRenew(entry, runId, until);
      if !decision.Renew? {
        return NotRenewed;
      }
      var reply := key.UpdateWithRecovery(Write(me, revision, decision.lease), network(attempt));
      if reply.Updated? {
        return Renewed(until);
      }
      if reply.GaveUp? {
        return RenewUnavailable;
      }
    }
    return NotRenewed;
  }

  datatype ReleaseResult = Released | NotMine | StillContended | ReleaseUnavailable

  /** _release_lease and release_lease: after Released the stored lease of the run is released and
      expired; after NotMine the key holds no lease of the run. The source returns silently in
      the first three cases. */
  method ReleaseLease(key: Key<Lease>, me: nat, runId: string, network: nat -> seq<Delivery>)
    returns (result: ReleaseResult)
    modifies key
    ensures old(key.history) <= key.history
    ensures result.Released? ==>
              var n := |key.history| - 1;
              && |old(key.history)| <= n && 0 < n
              && key.history[n - 1].value.runId == runId
              && key.history[n] == Write(me, n, Lease(runId, 0.0, true))
    ensures forall i :: |old(key.history)| <= i < |key.history| && key.history[i].writer == me ==>
              IsReleaseAt(key.history, i, runId)
    ensures result.StillContended? ==> |key.history| >= |old(key.history)| + MAX_ATTEMPTS
    ensures IsStored(old(key.history), runId) && OnlyWrote(old(key.history), key.history, me)
              && (forall k: nat :: OneReply(network(k))) ==>
              result.Released?
    ensures result.NotMine? ==> key.history == [] || key.history[|key.history| - 1].value.runId != runId
  {
    for attempt := 0 to MAX_ATTEMPTS
      invariant old(key.history) <= key.history
      invariant |key.history| >= |old(key.history)| + attempt
      invariant (forall k: nat :: OneReply(network(k))) ==>
          attempt == 0 || !OnlyWrote(old(key.history), key.history, me)
      invariant forall i :: |old(key.history)| <= i < |key.history| && key.history[i].writer == me ==>
                  IsReleaseAt(key.history, i, runId)
    {
      key.OtherClients(me);
      var entry, revision := key.Get();
      var decision := DecideRelease(entry, runId);
      if decision.NothingToRelease? {
        return NotMine;
      }
      var reply := key.UpdateWithRecovery(Write(me, revision, decision.lease), network(attempt));
      if reply.Updated? {
        return Released;
      }
      if reply.GaveUp? {
        return ReleaseUnavailable;
      }
    }
    return StillContended;
  }
}
