/**
 The journal protocol together with derived result IDs: unless the hash collides on two results
 stored in the same journal, derived IDs are injective, which is what the protocol needs.
 */
module DerivedIdRuns {
  import opened ResultJournal
  import opened JournalRuns
  import opened ResultIds
  import opened Options

  /** The factory gives every result of an input the ID derived from the input and its slot, and
      uses each slot once per input. */
  ghost predicate DerivesIds(hash: Hash, factory: Factory) {
    && (forall id: string, v: nat, k: nat {:trigger factory(id, v)[k]} :: k < |factory(id, v)| ==>
          DeriveResultMessageId(hash, id, factory(id, v)[k].slot) == Some(factory(id, v)[k].messageId))
    && (forall id: string, v: nat, j: nat, k: nat {:trigger factory(id, v)[j], factory(id, v)[k]} ::
          j < k < |factory(id, v)| ==> factory(id, v)[j].slot != factory(id, v)[k].slot)
  }

  ghost predicate Stores(commits: map<string, Commit>, id: string, slot: string) {
    id in commits && exists r :: r in commits[id].results && r.slot == slot
  }

  /** The hash separates the preimages of the results in this journal. */
  ghost predicate NoCollisions(hash: Hash, commits: map<string, Commit>) {
    forall a, s, b, t ::
      Stores(commits, a, s) && Stores(commits, b, t) && Preimage(a, s).Some? && Preimage(b, t).Some?
      && Preimage(a, s) != Preimage(b, t)
      ==> hash(Preimage(a, s).value) != hash(Preimage(b, t).value)
  }

  ghost predicate Stored(factory: Factory, commits: map<string, Commit>, id: string, k: nat) {
    id in commits && commits[id] == MakeCommit(factory, id, commits[id].version) && k < |commits[id].results|
  }

  lemma EqualIdsEqualPlaces(hash: Hash, factory: Factory, commits: map<string, Commit>, a: string, j: nat, b: string,
      k: nat)
    requires DerivesIds(hash, factory) && NoCollisions(hash, commits)
    requires Stored(factory, commits, a, j) && Stored(factory, commits, b, k)
    requires commits[a].results[j].messageId == commits[b].results[k].messageId
    ensures a == b && j == k
  {
    var r, s := factory(a, commits[a].version)[j], factory(b, commits[b].version)[k];
    assert DeriveResultMessageId(hash, a, r.slot) == Some(r.messageId);
    assert DeriveResultMessageId(hash, b, s.slot) == Some(s.messageId);
    assert r in commits[a].results && s in commits[b].results;
    assert Stores(commits, a, r.slot) && Stores(commits, b, s.slot);
    DerivedIdsEqualIff(hash, a, r.slot, b, s.slot);
    assert a == b && r.slot == s.slot;
  }

  lemma DerivedIdsAreInjective(hash: Hash, factory: Factory, commits: map<string, Commit>)
    requires DerivesIds(hash, factory) && NoCollisions(hash, commits)
    requires forall id :: id in commits ==> commits[id] == MakeCommit(factory, id, commits[id].version)
    ensures IdsAreInjective(commits)
  {
    forall r, s | IsJournaledResult(commits, r) && IsJournaledResult(commits, s) && r.messageId == s.messageId
      ensures r == s
    {
      var a :| a in commits && r in commits[a].results;
      var b :| b in commits && s in commits[b].results;
      var j :| 0 <= j < |commits[a].results| && commits[a].results[j] == r;
      var k :| 0 <= k < |commits[b].results| && commits[b].results[k] == s;
      EqualIdsEqualPlaces(hash, factory, commits, a, j, b, k);
    }
  }

  /** With derived IDs and no hash collision among the stored results, every accepted publication
      is the stored result of its ID, and a normal return means all of them are accepted. */
  lemma DerivedPublicationsAreExact(hash: Hash, params: Params, steps: seq<Step>)
    requires DerivesIds(hash, params.factory)
    requires NoCollisions(hash, Run(params, INITIAL, steps).journal.commits)
    ensures var world := Run(params, INITIAL, steps);
            && (forall r :: IsJournaledResult(world.journal.commits, r) && r.messageId in world.publisher.accepted ==>
                  world.publisher.accepted[r.messageId] == r)
            && (forall w, k ::
                  w in world.workers && world.workers[w].Returned? && 0 <= k < |world.workers[w].commit.results| ==>
                  var r := world.workers[w].commit.results[k];
                  r.messageId in world.publisher.accepted && world.publisher.accepted[r.messageId] == r)
  {
    CommitsAreExactAndDistinct(params, steps);
    forall id | id in Run(params, INITIAL, steps).journal.commits
      ensures var commits := Run(params, INITIAL, steps).journal.commits;
              commits[id] == MakeCommit(params.factory, id, commits[id].version)
    {
    }
    DerivedIdsAreInjective(hash, params.factory, Run(params, INITIAL, steps).journal.commits);
    AcceptedPublicationsAreExact(params, steps);
  }
}
