/**
 The bootstrap claim of src/currencyservice/bootstrap_claim.js: a lease with a fencing token,
 kept in one revisioned key, that decides which worker publishes the bootstrap data.

 The two decisions taken on a record that was read, DecideAcquire and DecideComplete, are shared
 by the imperative loops below and by the interleavings in BootstrapRuns.
 */
module BootstrapClaim {
  import opened Options
  import opened RevisionedStore

  datatype Claim = Claim(owner: string, token: nat, attempts: nat, leaseUntil: int, completed: bool,
      completedAt: Option<int>)

  const MAX_ATTEMPTS := 32

  const DEFAULT_DURATION_MS := 30000

  datatype AcquireDecision = AlreadyComplete | HeldByOther(until: int) | Take(claim: Claim)

  function DecideAcquire(entry: Option<Claim>, owner: string, now: int, duration: int): AcquireDecision {
    match entry
    case None => Take(Claim(owner, 1, 1, now + duration, false, None))
    case Some(stored) =>
      if stored.completed then AlreadyComplete
      else if stored.leaseUntil > now then HeldByOther(stored.leaseUntil)
      else Take(stored.(owner := owner, token := stored.token + 1, attempts := stored.attempts + 1,
        leaseUntil := now + duration))
  }

  datatype CompleteDecision = ClaimLost | CompletedBefore | Finish(claim: Claim)

  function DecideComplete(entry: Option<Claim>, mine: Claim, now: int): CompleteDecision {
    match entry
    case None => ClaimLost
    case Some(stored) =>
      if stored.completed then CompletedBefore
      else if stored.owner != mine.owner || stored.token != mine.token || stored.leaseUntil <= now then ClaimLost
      else Finish(stored.(completed := true, completedAt := Some(now), leaseUntil := 0))
  }

  /** `options.durationMs || 30000`. */
  function EffectiveDuration(durationMs: Option<int>): int {
    if durationMs.Some? && durationMs.value != 0 then durationMs.value else DEFAULT_DURATION_MS
  }

  // ----- What one write may follow -----

  /** A take-over of the record `before`: of an absent one, or of an uncompleted one whose lease had
      run out at the taker's clock reading `now`. The token grows by one. */
  ghost predicate IsTake(before: Option<Claim>, claim: Claim, owner: string, now: int, duration: int) {
    && claim.owner == owner && claim.leaseUntil == now + duration && !claim.completed
    && match before
       case None => claim.token == 1 && claim.attempts == 1 && claim.completedAt == None
       case Some(stored) =>
         && !stored.completed && stored.leaseUntil <= now
         && claim.token == stored.token + 1 && claim.attempts == stored.attempts + 1
             && claim.completedAt == stored.completedAt
  }

  /** A completion of the record `before` by a holder of `mine`, at a time `now` within its lease. */
  ghost predicate IsFinish(before: Option<Claim>, claim: Claim, mine: Claim, now: int) {
    && before.Some? && !before.value.completed && now < before.value.leaseUntil
    && claim == before.value.(completed := true, completedAt := Some(now), leaseUntil := 0)
    && before.value.owner == mine.owner && before.value.token == mine.token
  }

  ghost predicate IsCompleted(history: seq<Write<Claim>>) {
    exists i :: 0 <= i < |history| && history[i].value.completed
  }

  /** One create or update: no replay, so a request or a reply that is lost surfaces as an error. */
  method SendOnce(key: Key<Claim>, write: Write<Claim>, delivery: Delivery) returns (result: UpdateResult)
    modifies key
    ensures key.history == if delivery.RequestLost? then old(key.history) else Land(old(key.history), write)
    ensures result == if !delivery.Replied? then GaveUp
                      else if write.expected == |old(key.history)| then Updated(write.expected + 1)
                      else RevisionConflict
  {
    var landed := false;
    if !delivery.RequestLost? {
      landed := key.CompareAndSet(write);
    }
    if !delivery.Replied? {
      return GaveUp;
    }
    return if landed then Updated(write.expected + 1) else RevisionConflict;
  }

  /** The only write of a call so far is its last record, a proper take-over. */
  ghost predicate TookLast(before: seq<Write<Claim>>, after: seq<Write<Claim>>, me: nat, claim: Claim,
                           owner: string, now: int, duration: int)
  {
    && |before| < |after|
    && var n := |after| - 1;
       && after[n] == Write(me, n, claim) && IsTake(ValueAt(after, n), claim, owner, now, duration)
       && WroteNothing(before, after[..n], me)
  }

  /** The only write of a call so far is its last record, a proper completion. */
  ghost predicate FinishedLast(before: seq<Write<Claim>>, after: seq<Write<Claim>>, me: nat, mine: Claim, now: int) {
    && |before| < |after|
    && var n := |after| - 1;
       && after[n].writer == me && after[n].expected == n && IsFinish(ValueAt(after, n), after[n].value, mine, now)
       && WroteNothing(before, after[..n], me)
  }

  datatype AcquireResult =
    | Acquired(claim: Claim, revision: nat)
    | Complete
    | Held(until: int)
    | InvalidArguments
    | RetriesExhausted
    | AcquireFailed

  /**
     The retry loop of acquire, other workers writing between any two accesses. `now` is read
     once, before up to 32 tries, and yet an acquired claim is a proper take-over of the record
     stored immediately before it. The revision returned for a created claim is 0. An error other
     than a conflict is thrown on, and may hide a take-over that landed.
     */
  method Acquire(key: Key<Claim>, me: nat, owner: string, now: int, duration: int, network: nat -> Delivery)
    returns (result: AcquireResult)
    modifies key
    ensures old(key.history) <= key.history
    ensures result.InvalidArguments? <==> owner == "" || duration <= 0
    ensures result.Acquired? ==>
              && TookLast(old(key.history), key.history, me, result.claim, owner, now, duration)
              && result.revision == (if |key.history| == 1 then 0 else |key.history|)
    ensures result.Complete? ==> key.history != [] && key.history[|key.history| - 1].value.completed
    ensures result.Held? ==> result.until > now && IsHeld(key.history, result.until)
    ensures result.RetriesExhausted? ==> |key.history| >= |old(key.history)| + MAX_ATTEMPTS
    ensures !result.InvalidArguments? && CanTake(old(key.history), now)
              && OnlyWrote(old(key.history), key.history, me) && (forall k :: network(k).Replied?) ==>
              result.Acquired?
    ensures result.AcquireFailed? ==>
              || WroteNothing(old(key.history), key.history, me)
              || exists claim :: TookLast(old(key.history), key.history, me, claim, owner, now, duration)
    ensures !result.Acquired? && !result.AcquireFailed? ==> WroteNothing(old(key.history), key.history, me)
  {
    if owner == "" || duration <= 0 {
      return InvalidArguments;
    }
    for attempt := 0 to MAX_ATTEMPTS
      invariant old(key.history) <= key.history
      invariant WroteNothing(old(key.history), key.history, me)
      invariant |key.history| >= |old(key.history)| + attempt
    {
      key.OtherClients(me);
      var entry, revision := key.Get();
      var decision := DecideAcquire(entry, owner, now, duration);
      match decision {
        case AlreadyComplete => return Complete;
        case HeldByOther(until) => return Held(until);
        case Take(claim) =>
          key.OtherClients(me);
          var reply := SendOnce(key, Write(me, revision, claim), network(attempt));
          assert |key.history| == revision + 1 && key.history[revision].writer == me ==>
                   TookLast(old(key.history), key.history, me, claim, owner, now, duration);
          if reply.Updated? {
            return Acquired(claim, if revision == 0 then 0 else revision + 1);
          }
          if reply.GaveUp? {
            return AcquireFailed;
          }
      }
    }
    assert key.history[|old(key.history)|].writer != me;
    return RetriesExhausted;
  }

  ghost predicate IsHeld(history: seq<Write<Claim>>, until: int) {
    && history != []
    && !history[|history| - 1].value.completed && history[|history| - 1].value.leaseUntil == until
  }

  /** The key is absent, or its record is uncompleted and its lease has run out. */
  ghost predicate CanTake(history: seq<Write<Claim>>, now: int) {
    history == [] || (!history[|history| - 1].value.completed && history[|history| - 1].value.leaseUntil <= now)
  }

  /** The stored record is the claim that is held, uncompleted and within its lease. */
  ghost predicate IsLive(history: seq<Write<Claim>>, mine: Claim, now: int) {
    && history != []
    && var stored := history[|history| - 1].value;
       !stored.completed && stored.owner == mine.owner && stored.token == mine.token && stored.leaseUntil > now
  }

  /** The claim is not there any more: absent, another worker's, or run out. */
  ghost predicate IsGone(history: seq<Write<Claim>>, mine: Claim, now: int) {
    || history == []
    || var stored := history[|history| - 1].value;
       !stored.completed && (stored.owner != mine.owner || stored.token != mine.token || stored.leaseUntil <= now)
  }

  datatype CompleteResult = Completed | Lost | CompletionRetriesExhausted | CompletionFailed

  /** The retry loop of complete. It returns normally only over a completed record, and what it
      writes itself completes the record it holds the token of, within that record's lease. An error
      other than a conflict is thrown on, and may hide a completion that landed. */
  method CompleteClaim(key: Key<Claim>, me: nat, mine: Claim, now: int, network: nat -> Delivery)
    returns (result: CompleteResult)
    modifies key
    ensures old(key.history) <= key.history
    ensures result.Completed? ==> key.history != [] && key.history[|key.history| - 1].value.completed
    ensures result.Lost? ==> IsGone(key.history, mine, now)
    ensures result.CompletionRetriesExhausted? ==> |key.history| >= |old(key.history)| + MAX_ATTEMPTS
    ensures IsLive(old(key.history), mine, now)
              && OnlyWrote(old(key.history), key.history, me) && (forall k :: network(k).Replied?) ==>
              result.Completed?
    ensures result.Completed? || result.CompletionFailed? ==>
              || WroteNothing(old(key.history), key.history, me)
              || FinishedLast(old(key.history), key.history, me, mine, now)
    ensures result.Lost? || result.CompletionRetriesExhausted? ==> WroteNothing(old(key.history), key.history, me)
  {
    for attempt := 0 to MAX_ATTEMPTS
      invariant old(key.history) <= key.history
      invariant WroteNothing(old(key.history), key.history, me)
      invariant |key.history| >= |old(key.history)| + attempt
    {
      key.OtherClients(me);
      var entry, revision := key.Get();
      var decision := DecideComplete(entry, mine, now);
      match decision {
        case ClaimLost => return Lost;
        case CompletedBefore => return Completed;
        case Finish(claim) =>
          key.OtherClients(me);
          var reply := SendOnce(key, Write(me, revision, claim), network(attempt));
          if reply.Updated? {
            assert key.history[revision].value.completed;
            return Completed;
          }
          if reply.GaveUp? {
            return CompletionFailed;
          }
      }
    }
    assert key.history[|old(key.history)|].writer != me;
    return CompletionRetriesExhausted;
  }

  datatype EnsureResult = EnsuredComplete | EnsuredPublished | Threw | StillWaiting

  /**
     ensureBootstrap: acquire, publish, complete; while another worker holds the claim, wait and start
     over, `rounds` times at most. `clock` gives its clock readings, `network` what happens to its
     requests, and `publishes` whether publish() finishes. A normal return is over a completed
     record; what it wrote itself is completed only after its own publish() had finished.
     */
  method EnsureBootstrap(key: Key<Claim>, me: nat, owner: string, durationMs: Option<int>, clock: nat -> int,
                         network: nat -> nat -> Delivery, publishes: bool, rounds: nat)
    returns (result: EnsureResult, ghost started: bool, ghost finished: bool)
    modifies key
    ensures old(key.history) <= key.history
    ensures result.EnsuredComplete? || result.EnsuredPublished? ==> IsCompleted(key.history)
    ensures result.EnsuredPublished? ==> finished
    ensures finished ==> started && publishes
    ensures started ==> Took(old(key.history), key.history, me)
    ensures Finished(old(key.history), key.history, me) ==> finished
    ensures started ==> TookFor(old(key.history), key.history, me, durationMs, clock)
    ensures rounds > 0 && owner != "" && (durationMs.Some? ==> durationMs.value >= 0) && publishes
              && CanTake(old(key.history), clock(0)) && OnlyWrote(old(key.history), key.history, me)
              && AllReplied(network)
              && clock(1) < clock(0) + (if durationMs in {None, Some(0)} then 30000 else durationMs.value) ==>
              result.EnsuredPublished?
    ensures owner == "" || EffectiveDuration(durationMs) <= 0 ==> result.Threw? || rounds == 0
  {
    started, finished := false, false;
    var duration := EffectiveDuration(durationMs);
    for round := 0 to rounds
      invariant old(key.history) <= key.history && WroteNothing(old(key.history), key.history, me)
      invariant !started && !finished
      invariant round > 0 ==>
          !(owner != "" && duration > 0 && CanTake(old(key.history), clock(0)) && AllReplied(network)
                                && OnlyWrote(old(key.history), key.history, me))
      invariant owner == "" || duration <= 0 ==> round == 0
    {
      var now := clock(2 * round);
      var claim := Acquire(key, me, owner, now, duration, network(2 * round));
      if claim.Complete? {
        return EnsuredComplete, started, finished;
      }
      if claim.Acquired? {
        started := true;
        ghost var taken := key.history;
        TookThere(old(key.history), key.history, me);
        assert taken[|taken| - 1].value.leaseUntil == clock(2 * round) + duration;
        if !publishes {
          return Threw, started, finished;
        }
        finished := true;
        key.OtherClients(me);
        ghost var middle := key.history;
        assert middle != taken ==> !OnlyWrote(old(key.history), middle, me) by {
          if middle != taken {
            assert middle[|taken|].writer != me;
          }
        }
        var completed := CompleteClaim(key, me, claim.claim, clock(2 * round + 1), network(2 * round + 1));
        TookStays(old(key.history), taken, key.history, me);
        OnlyWroteParts(old(key.history), middle, key.history, me);
        return if completed.Completed? then EnsuredPublished else Threw, started, finished;
      }
      if !claim.Held? {
        return Threw, started, finished;
      }
    }
    return StillWaiting, started, finished;
  }

  ghost predicate AllReplied(network: nat -> nat -> Delivery) {
    forall j, k :: network(j)(k).Replied?
  }

  lemma OnlyWroteParts(before: seq<Write<Claim>>, middle: seq<Write<Claim>>, after: seq<Write<Claim>>, me: nat)
    requires before <= middle <= after
    ensures OnlyWrote(before, after, me) ==> OnlyWrote(before, middle, me) && OnlyWrote(middle, after, me)
  {
  }

  /** The call took the claim. */
  ghost predicate Took(before: seq<Write<Claim>>, after: seq<Write<Claim>>, me: nat) {
    exists i :: |before| <= i < |after| && after[i].writer == me && !after[i].value.completed
  }

  /** The lease it took runs from one of its clock readings for the duration given, 30 seconds if none
      or zero is. */
  ghost predicate TookFor(
    before: seq<Write<Claim>>, after: seq<Write<Claim>>, me: nat, durationMs: Option<int>, clock: nat -> int)
  {
    exists i, k: nat :: |before| <= i < |after| && after[i].writer == me
      && after[i].value.leaseUntil == clock(k) + (if durationMs in {None, Some(0)} then 30000 else durationMs.value)
  }

  ghost predicate Finished(before: seq<Write<Claim>>, after: seq<Write<Claim>>, me: nat) {
    exists i :: |before| <= i < |after| && after[i].writer == me && after[i].value.completed
  }

  lemma TookThere(before: seq<Write<Claim>>, after: seq<Write<Claim>>, me: nat)
    requires before <= after && |before| < |after|
    requires after[|after| - 1].writer == me && !after[|after| - 1].value.completed
    ensures Took(before, after, me)
  {
  }

  lemma TookStays(before: seq<Write<Claim>>, middle: seq<Write<Claim>>, after: seq<Write<Claim>>, me: nat)
    requires Took(before, middle, me) && middle <= after
    ensures Took(before, after, me)
  {
    var i :| |before| <= i < |middle| && middle[i].writer == me && !middle[i].value.completed;
    assert after[i] == middle[i];
  }
}
