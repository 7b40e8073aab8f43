/**
 The reference result-journal handler of scripts/testing/stateless_handler_contract.py:
 an optimistic journal that stores an input's state transition together with its results,
 a publisher that de-duplicates by message ID, and the handler that drives both.

 Each lock-protected operation has a specification function on values (CommitStep,
 PublishStep). The classes below are proved against them; JournalRuns interleaves them.
 */
module ResultJournal {
  import opened Bytes
  import opened Options

  datatype StoredResult = StoredResult(messageId: string, slot: string, payload: ByteString)

  datatype Commit = Commit(inputId: string, version: nat, results: seq<StoredResult>)

  /** What a result_factory is: a function of the input and of the version it commits at. */
  type Factory = (string, nat) -> seq<StoredResult>

  /** `conflicts` is the number of injected conflicts still to come. As in the source any
      non-zero value, a negative one included, makes the next new commit fail. */
  datatype JournalState = JournalState(version: nat, commits: map<string, Commit>, conflicts: int)

  datatype ConflictReason = Injected | StaleVersion

  datatype CommitReply = Committed(commit: Commit) | StateConflict(reason: ConflictReason)

  const EMPTY_JOURNAL := JournalState(0, map[], 0)

  function MakeCommit(factory: Factory, id: string, version: nat): Commit {
    Commit(id, version, factory(id, version))
  }

  function CommitStep(j: JournalState, id: string, expected: nat, factory: Factory): (JournalState, CommitReply) {
    if id in j.commits then
      (j, Committed(j.commits[id]))
    else if j.conflicts != 0 then
      (j.(conflicts := j.conflicts - 1, version := j.version + 1), StateConflict(Injected))
    else if j.version != expected then
      (j, StateConflict(StaleVersion))
    else
      var commit := MakeCommit(factory, id, j.version + 1);
      (j.(version := j.version + 1, commits := j.commits[id := commit]), Committed(commit))
  }

  /** What an attempt may do, whatever the worker had read: only an attempt that read the current
      version stores a commit of a new input, and an outdated one changes nothing. */
  lemma NewCommitNeedsCurrentVersion(j: JournalState, id: string, expected: nat, factory: Factory)
    requires id !in j.commits
    ensures var (next, reply) := CommitStep(j, id, expected, factory);
            && (reply.Committed? <==> j.conflicts == 0 && j.version == expected)
            && (reply.Committed? <==> id in next.commits)
            && (!reply.Committed? ==> next.commits == j.commits)
            && (j.conflicts == 0 && j.version != expected ==> next == j)
            && (next.version == j.version <==> j.conflicts == 0 && j.version != expected)
  {
  }

  datatype PublisherState = PublisherState(attempts: seq<StoredResult>, accepted: map<string, StoredResult>,
      timeouts: int)

  const EMPTY_PUBLISHER := PublisherState([], map[], 0)

  function Accept(accepted: map<string, StoredResult>, result: StoredResult): map<string, StoredResult> {
    if result.messageId in accepted then accepted else accepted[result.messageId := result]
  }

  /** The flag says whether the caller sees a PublishTimeout. The server accepts in both cases. */
  function PublishStep(p: PublisherState, result: StoredResult): (PublisherState, bool) {
    var q := p.(attempts := p.attempts + [result], accepted := Accept(p.accepted, result));
    if p.timeouts != 0 then (q.(timeouts := p.timeouts - 1), true) else (q, false)
  }

  class InMemoryResultJournal {
    var version: nat
    var commits: map<string, Commit>
    var conflictsRemaining: int

    function State(): JournalState
      reads this
    {
      JournalState(version, commits, conflictsRemaining)
    }

    constructor ()
      ensures State() == EMPTY_JOURNAL
    {
      version, commits, conflictsRemaining := 0, map[], 0;
    }

    method Load(id: string) returns (found: Option<Commit>)
      ensures found == if id in commits then Some(commits[id]) else None
    {
      if id in commits {
        return Some(commits[id]);
      }
      return None;
    }

    method TryCommit(id: string, expected: nat, factory: Factory) returns (reply: CommitReply)
      modifies this
      ensures (State(), reply) == CommitStep(old(State()), id, expected, factory)
      ensures id in old(commits) ==> reply == Committed(old(commits[id])) && State() == old(State())
      ensures id !in old(commits) && old(conflictsRemaining) != 0 ==>
                && reply == StateConflict(Injected) && commits == old(commits)
                && version == old(version) + 1 && conflictsRemaining == old(conflictsRemaining) - 1
      ensures id !in old(commits) && old(conflictsRemaining) == 0 && old(version) != expected ==>
                reply == StateConflict(StaleVersion) && State() == old(State())
      ensures id !in old(commits) && old(conflictsRemaining) == 0 && old(version) == expected ==>
                && reply == Committed(Commit(id, expected + 1, factory(id, expected + 1)))
                && State() == JournalState(expected + 1, old(commits)[id := reply.commit], 0)
    {
      if id in commits {
        return Committed(commits[id]);
      }
      if conflictsRemaining != 0 {
        conflictsRemaining := conflictsRemaining - 1;
        version := version + 1;
        return StateConflict(Injected);
      }
      if version != expected {
        return StateConflict(StaleVersion);
      }
      var nextVersion := version + 1;
      var commit := Commit(id, nextVersion, factory(id, nextVersion));
      version := nextVersion;
      commits := commits[id := commit];
      return Committed(commit);
    }
  }

  class RecordingPublisher {
    var attempts: seq<StoredResult>
    var accepted: map<string, StoredResult>
    var timeoutsRemaining: int

    function State(): PublisherState
      reads this
    {
      PublisherState(attempts, accepted, timeoutsRemaining)
    }

    constructor ()
      ensures State() == EMPTY_PUBLISHER
    {
      attempts, accepted, timeoutsRemaining := [], map[], 0;
    }

    method Publish(result: StoredResult) returns (timedOut: bool)
      modifies this
      ensures (State(), timedOut) == PublishStep(old(State()), result)
      ensures attempts == old(attempts) + [result]
      ensures accepted
          == if result.messageId in old(accepted) then old(accepted) else old(accepted)[result.messageId := result]
      ensures timedOut <==> old(timeoutsRemaining) != 0
      ensures timeoutsRemaining == if timedOut then old(timeoutsRemaining) - 1 else 0
    {
      attempts := attempts + [result];
      timedOut := false;
      if timeoutsRemaining != 0 {
        timeoutsRemaining := timeoutsRemaining - 1;
        timedOut := true;
      }
      if result.messageId !in accepted {
        accepted := accepted[result.messageId := result];
      }
    }
  }

  datatype CommitResult = Done(commit: Commit) | ConflictRaised | NoAttemptMade

  datatype HandleResult = Handled(commit: Commit) | NotCommitted | PublishTimedOut

  /** What publishing `results` in order leaves behind, stopping after the first timeout. */
  function PublishAll(p: PublisherState, results: seq<StoredResult>): (PublisherState, bool)
    decreases |results|
  {
    if results == [] then (p, false)
    else
      var (q, timedOut) := PublishStep(p, results[0]);
      if timedOut then (q, true) else PublishAll(q, results[1..])
  }

  class ResultJournalHandler {
    const journal: InMemoryResultJournal
    const publisher: RecordingPublisher
    const factory: Factory
    const maxConflictRetries: int

    constructor (journal: InMemoryResultJournal, publisher: RecordingPublisher, factory: Factory,
        maxConflictRetries: int)
      ensures this.journal == journal && this.publisher == publisher
      ensures this.factory == factory && this.maxConflictRetries == maxConflictRetries
    {
      this.journal, this.publisher := journal, publisher;
      this.factory, this.maxConflictRetries := factory, maxConflictRetries;
    }

    /** With nobody else writing, a new input that meets c injected conflicts commits at version
        v + c + 1 exactly when 0 <= c <= max_conflict_retries, after c + 1 attempts; in every other
        case the call gives up after max_conflict_retries + 1 attempts and commits nothing. */
    method CommitInput(id: string) returns (result: CommitResult, ghost attempts: nat)
      modifies journal
      ensures var was := old(journal.State()); var c := was.conflicts;
              if id in was.commits then
                && result == Done(was.commits[id]) && journal.State() == was && attempts == 0
              else if maxConflictRetries < 0 then
                && result == NoAttemptMade && journal.State() == was && attempts == 0
              else if 0 <= c <= maxConflictRetries then
                var commit := Commit(id, was.version + c + 1, factory(id, was.version + c + 1));
                && result == Done(commit) && attempts == c + 1
                && journal.State() == JournalState(was.version + c + 1, was.commits[id := commit], 0)
              else
                && result == ConflictRaised && attempts == maxConflictRetries + 1
                && journal.State() == JournalState(was.version + attempts, was.commits, c - attempts)
    {
      attempts := 0;
      var duplicate := journal.Load(id);
      if duplicate.Some? {
        return Done(duplicate.value), attempts;
      }
      var attempt := 0;
      while attempt <= maxConflictRetries
        invariant attempt == attempts && (attempt == 0 || attempt <= maxConflictRetries)
        invariant id !in journal.commits && journal.commits == old(journal.commits)
        invariant journal.version == old(journal.version) + attempt
        invariant journal.conflictsRemaining == old(journal.conflictsRemaining) - attempt
        invariant !(0 <= old(journal.conflictsRemaining) < attempt)
        decreases maxConflictRetries - attempt
      {
        var expected := journal.version;
        var reply := journal.TryCommit(id, expected, factory);
        attempts := attempts + 1;
        if reply.Committed? {
          return Done(reply.commit), attempts;
        }
        if attempt == maxConflictRetries {
          return ConflictRaised, attempts;
        }
        attempt := attempt + 1;
      }
      return NoAttemptMade, attempts;
    }

    method PublishCommit(commit: Commit) returns (timedOut: bool)
      modifies publisher
      ensures (publisher.State(), timedOut) == PublishAll(old(publisher.State()), commit.results)
    {
      var i := 0;
      assert commit.results[0..] == commit.results;
      while i < |commit.results|
        invariant 0 <= i <= |commit.results|
        invariant PublishAll(old(publisher.State()), commit.results)
            == PublishAll(publisher.State(), commit.results[i..])
      {
        var rest := commit.results[i..];
        assert rest[0] == commit.results[i] && rest[1..] == commit.results[i + 1..];
        timedOut := publisher.Publish(commit.results[i]);
        if timedOut {
          return true;
        }
        i := i + 1;
      }
      return false;
    }

    /** A normal return has published the whole stored commit of the input; an input that could
        not be committed publishes nothing. */
    method Handle(id: string) returns (result: HandleResult)
      modifies journal, publisher
      ensures result.NotCommitted? <==> id !in journal.commits
      ensures result.NotCommitted? ==> publisher.State() == old(publisher.State())
      ensures !result.NotCommitted? ==>
                (publisher.State(), result.PublishTimedOut?)
                    == PublishAll(old(publisher.State()), journal.commits[id].results)
      ensures result.Handled? ==> result.commit == journal.commits[id]
      ensures id in old(journal.commits) ==> journal.State() == old(journal.State())
    {
      var committed, attempts := CommitInput(id);
      if !committed.Done? {
        return NotCommitted;
      }
      var timedOut := PublishCommit(committed.commit);
      return if timedOut then PublishTimedOut else Handled(committed.commit);
    }
  }

  // ----- Properties of publishing one commit -----

  /** Publishing keeps what was accepted and makes every published ID accepted. */
  lemma {:induction false} PublishAllAccepts(p: PublisherState, results: seq<StoredResult>)
    ensures var (q, timedOut) := PublishAll(p, results);
            && (forall m :: m in p.accepted ==> m in q.accepted && q.accepted[m] == p.accepted[m])
            && (forall m :: m in q.accepted && m !in p.accepted ==>
                q.accepted[m] in results && q.accepted[m].messageId == m)
            && (!timedOut ==> forall r :: r in results ==> r.messageId in q.accepted)
    decreases |results|
  {
    if results != [] {
      var (q, timedOut) := PublishStep(p, results[0]);
      if !timedOut {
        PublishAllAccepts(q, results[1..]);
        assert forall r :: r in results ==> r == results[0] || r in results[1..];
      }
    }
  }

  /** Every result of the commit is accepted byte for byte exactly when no two of its results
      share an ID while differing. This is why result IDs have to be injective. */
  lemma AcceptedVerbatimIff(results: seq<StoredResult>)
    ensures var q := PublishAll(EMPTY_PUBLISHER, results).0;
            (forall r :: r in results ==> r.messageId in q.accepted && q.accepted[r.messageId] == r)
            <==> (forall r, s :: r in results && s in results && r.messageId == s.messageId ==> r == s)
  {
    PublishAllNeverTimesOut(EMPTY_PUBLISHER, results);
    PublishAllAccepts(EMPTY_PUBLISHER, results);
  }

  lemma {:induction false} PublishAllNeverTimesOut(p: PublisherState, results: seq<StoredResult>)
    requires p.timeouts == 0
    ensures !PublishAll(p, results).1
    ensures PublishAll(p, results).0.attempts == p.attempts + results
    decreases |results|
  {
    if results == [] {
      assert p.attempts + results == p.attempts;
    } else {
      PublishAllNeverTimesOut(PublishStep(p, results[0]).0, results[1..]);
      assert p.attempts + [results[0]] + results[1..] == p.attempts + results;
    }
  }

  /** Redelivery after an ambiguous publish: handling the same stored commit again leaves
      every accepted result as it was. */
  lemma RepublishChangesNothing(p: PublisherState, results: seq<StoredResult>)
    requires !PublishAll(p, results).1
    ensures PublishAll(PublishAll(p, results).0, results).0.accepted == PublishAll(p, results).0.accepted
  {
    PublishAllAccepts(p, results);
    var q := PublishAll(p, results).0;
    PublishKnownChangesNothing(q, results);
  }

  lemma {:induction false} PublishKnownChangesNothing(p: PublisherState, results: seq<StoredResult>)
    requires forall r :: r in results ==> r.messageId in p.accepted
    ensures PublishAll(p, results).0.accepted == p.accepted
    decreases |results|
  {
    if results != [] {
      assert results[0] in results;
      PublishKnownChangesNothing(PublishStep(p, results[0]).0, results[1..]);
    }
  }
}
