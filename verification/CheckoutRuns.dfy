/**
 All users of one worker checking out at once: their steps interleave in any order over one
 recorder.
 */
module CheckoutRuns {
  import opened Options
  import opened OutstandingLog
  import opened OutstandingMerge
  import opened CheckoutOutcome
  import opened Sums

  datatype World = World(checkouts: map<string, Checkout>, log: seq<Record>, completed: nat)

  /** A user starts a checkout under a fresh transaction ID, or goes on with one. */
  datatype Move = Start(id: string) | Go(id: string, now: real, stimulus: Stimulus)

  const EMPTY := World(map[], [], 0)

  function Apply(w: World, m: Move): World {
    match m
    case Start(id) => if id in w.checkouts then w else w.(checkouts := w.checkouts[id := NEW])
    case Go(id, now, s) =>
      if id !in w.checkouts then w
      else
        var c := w.checkouts[id];
        var (next, event) := Advance(c, s);
        World(w.checkouts[id := next], Logged(w.log, now, id, event), w.completed + CompletedBy(next) - CompletedBy(c))
  }

  function Run(moves: seq<Move>): World
    decreases |moves|
  {
    if moves == [] then EMPTY else Apply(Run(moves[..|moves| - 1]), moves[|moves| - 1])
  }

  predicate HasEnded(c: Checkout) {
    c.accepted && (c.stage.Closing? || c.stage.Reported?)
  }

  ghost predicate Outcomes(w: World) {
    forall i :: 0 <= i < |w.log| && w.log[i].event.Terminal? ==>
      w.log[i].transactionId in w.checkouts && w.checkouts[w.log[i].transactionId].outcome == w.log[i].event.outcome
  }

  ghost predicate IdsMatch(w: World) {
    && (forall id :: id in Ids(w.log, true) <==> id in w.checkouts && w.checkouts[id].accepted)
    && (forall id :: id in Ids(w.log, false) <==> id in w.checkouts && HasEnded(w.checkouts[id]))
  }

  ghost predicate AllProper(w: World) {
    forall id :: id in w.checkouts ==> Proper(w.checkouts[id])
  }

  function CompletedIds(w: World): set<string> {
    set id | id in w.checkouts && CompletedBy(w.checkouts[id]) == 1
  }

  ghost predicate Inv(w: World) {
    && AllProper(w) && IdsMatch(w) && Paired(w.log) && WellCounted(w.log) && Outcomes(w)
    && w.completed == |CompletedIds(w)|
  }

  // ----- Each step keeps the invariant -----

  lemma PairedSnoc(log: seq<Record>, record: Record)
    requires Paired(log) && record.transactionId !in Ids(log, record.event.Accepted?)
    requires record.event.Terminal? ==> record.transactionId in Ids(log, true)
    ensures Paired(log + [record])
  {
    var more := log + [record];
    forall i | 0 <= i < |more| && more[i].event.Terminal?
      ensures exists j :: 0 <= j < i && more[j].event.Accepted? && more[j].transactionId == more[i].transactionId
    {
      var j :| 0 <= j < i && j < |log| && log[j].event.Accepted? && log[j].transactionId == more[i].transactionId;
      assert more[j] == log[j];
    }
    forall i, j | 0 <= i < j < |more| && more[i].event.Accepted? == more[j].event.Accepted?
      ensures more[i].transactionId != more[j].transactionId
    {
      if j == |log| {
        assert log[i].transactionId in Ids(log, record.event.Accepted?);
      }
    }
  }

  lemma WellCountedSnoc(log: seq<Record>, record: Record)
    requires WellCounted(log) && record.outstanding == OutstandingLog.Step(CountAfter(log), record.event)
    ensures WellCounted(log + [record])
  {
    var more := log + [record];
    CountSnoc(log, record);
    forall i | 0 <= i < |more| ensures more[i].outstanding == CountAfter(more[..i + 1]) {
      if i < |log| {
        assert more[..i + 1] == log[..i + 1];
      } else {
        assert more[..i + 1] == more;
      }
    }
  }

  lemma LogKeeps(w: World, id: string, now: real, s: Stimulus)
    requires Inv(w) && id in w.checkouts
    ensures var v := Apply(w, Go(id, now, s)); Paired(v.log) && WellCounted(v.log)
  {
    var event := Advance(w.checkouts[id], s).1;
    if event.Some? {
      var record := Record(now, event.value, id, OutstandingLog.Step(CountAfter(w.log), event.value));
      EventIsNew(w.checkouts[id], s);
      PairedSnoc(w.log, record);
      WellCountedSnoc(w.log, record);
    }
  }

  /** When a checkout logs something, and what it becomes. */
  lemma EventIsNew(c: Checkout, s: Stimulus)
    requires Proper(c)
    ensures var (next, event) := Advance(c, s);
            && (next.accepted <==> c.accepted || event == Some(Accepted))
            && (HasEnded(next) <==> HasEnded(c) || (event.Some? && event.value.Terminal?))
            && (event == Some(Accepted) ==> !c.accepted)
            && (event.Some? && event.value.Terminal? ==>
                c.accepted && !HasEnded(c) && next.outcome == event.value.outcome)
            && (HasEnded(c) ==> next.outcome == c.outcome)
  {
  }

  lemma LoggedIds(log: seq<Record>, now: real, id: string, event: Option<Event>, accepted: bool)
    ensures Ids(Logged(log, now, id, event), accepted)
         == if event.Some? && event.value.Accepted? == accepted then Ids(log, accepted) + {id} else Ids(log, accepted)
  {
    var more := Logged(log, now, id, event);
    if event.Some? {
      assert more[..|more| - 1] == log;
      IdsSnoc(more, accepted);
    }
  }

  lemma IdsKeep(w: World, id: string, now: real, s: Stimulus)
    requires Inv(w) && id in w.checkouts
    ensures IdsMatch(Apply(w, Go(id, now, s)))
  {
    var v := Apply(w, Go(id, now, s));
    var event := Advance(w.checkouts[id], s).1;
    EventIsNew(w.checkouts[id], s);
    LoggedIds(w.log, now, id, event, true);
    LoggedIds(w.log, now, id, event, false);
    forall d
      ensures d in Ids(v.log, true) <==> d in v.checkouts && v.checkouts[d].accepted
      ensures d in Ids(v.log, false) <==> d in v.checkouts && HasEnded(v.checkouts[d])
    {
      if d != id {
        assert d in v.checkouts <==> d in w.checkouts;
        assert d in w.checkouts ==> v.checkouts[d] == w.checkouts[d];
      }
    }
  }

  lemma OutcomesKeep(w: World, id: string, now: real, s: Stimulus)
    requires Inv(w) && id in w.checkouts
    ensures Outcomes(Apply(w, Go(id, now, s)))
  {
    var v := Apply(w, Go(id, now, s));
    EventIsNew(w.checkouts[id], s);
    forall i | 0 <= i < |v.log| && v.log[i].event.Terminal?
      ensures v.log[i].transactionId in v.checkouts
      ensures v.checkouts[v.log[i].transactionId].outcome == v.log[i].event.outcome
    {
      if i < |w.log| {
        assert v.log[i] == w.log[i];
        assert w.log[i].transactionId in Ids(w.log, false);
      }
    }
  }

  lemma CompletedKeep(w: World, id: string, now: real, s: Stimulus)
    requires Inv(w) && id in w.checkouts
    ensures var v := Apply(w, Go(id, now, s)); v.completed == |CompletedIds(v)|
  {
    CompletedStays(w.checkouts[id], s);
    MoveCompleted(w, id, Advance(w.checkouts[id], s).0, Logged(w.log, now, id, Advance(w.checkouts[id], s).1));
  }

  lemma MoveCompleted(w: World, id: string, c: Checkout, log: seq<Record>)
    requires id in w.checkouts && CompletedBy(w.checkouts[id]) <= CompletedBy(c)
    ensures var moved := World(w.checkouts[id := c], log, 0);
            |CompletedIds(moved)| == |CompletedIds(w)| + CompletedBy(c) - CompletedBy(w.checkouts[id])
  {
    var moved := World(w.checkouts[id := c], log, 0);
    if CompletedBy(w.checkouts[id]) < CompletedBy(c) {
      assert CompletedIds(moved) == CompletedIds(w) + {id};
    } else {
      assert CompletedIds(moved) == CompletedIds(w);
    }
  }

  lemma CompletedStays(c: Checkout, s: Stimulus)
    ensures CompletedBy(c) <= CompletedBy(Advance(c, s).0)
  {
  }

  lemma StartKeeps(w: World, id: string)
    requires Inv(w)
    ensures Inv(Apply(w, Start(id)))
  {
    if id !in w.checkouts {
      assert CompletedIds(Apply(w, Start(id))) == CompletedIds(w);
    }
  }

  lemma InvStep(w: World, m: Move)
    requires Inv(w)
    ensures Inv(Apply(w, m))
  {
    match m
    case Start(id) => StartKeeps(w, id);
    case Go(id, now, s) =>
      if id in w.checkouts {
        AdvanceKeepsProper(w.checkouts[id], s);
        LogKeeps(w, id, now, s);
        IdsKeep(w, id, now, s);
        OutcomesKeep(w, id, now, s);
        CompletedKeep(w, id, now, s);
      }
  }

  lemma {:induction false} InvRun(moves: seq<Move>)
    ensures Inv(Run(moves))
    decreases |moves|
  {
    if moves != [] {
      InvRun(moves[..|moves| - 1]);
      InvStep(Run(moves[..|moves| - 1]), moves[|moves| - 1]);
    }
  }

  // ----- Theorems -----

  /** In every interleaving the log of a worker is paired and carries its own running count: what
      merging the logs of several workers relies on. */
  lemma LogIsPaired(moves: seq<Move>)
    ensures Paired(Run(moves).log) && WellCounted(Run(moves).log)
  {
    InvRun(moves);
  }

  function Open(w: World): set<string> {
    set id | id in w.checkouts && w.checkouts[id].accepted && !HasEnded(w.checkouts[id])
  }

  /** The outstanding count is the number of checkouts accepted and not ended: 0 once every accepted
      checkout has ended, and one too many for each that an exception cut short. */
  lemma OutstandingIsOpenCheckouts(moves: seq<Move>)
    ensures CountAfter(Run(moves).log) == |Open(Run(moves))|
  {
    var w := Run(moves);
    InvRun(moves);
    CountIsOpenTransactions(w.log);
    assert Open(w) == Ids(w.log, true) - Ids(w.log, false);
    assert Ids(w.log, true) == Open(w) + Ids(w.log, false);
  }

  /** A checkout's context and the log agree on the outcome, and the completed count is exact. */
  lemma ReportsAgree(moves: seq<Move>, id: string)
    ensures var w := Run(moves);
            && w.completed == |CompletedIds(w)|
            && CompletedIds(w) <= Ids(w.log, false) <= Ids(w.log, true)
            && (id in w.checkouts && HasEnded(w.checkouts[id]) ==>
                  exists i :: 0 <= i < |w.log| && w.log[i].transactionId == id
                      && w.log[i].event == Terminal(w.checkouts[id].outcome))
  {
    var w := Run(moves);
    InvRun(moves);
    CountIsOpenTransactions(w.log);
    forall d | d in CompletedIds(w) ensures d in Ids(w.log, false) {
      assert Proper(w.checkouts[d]);
    }
    if id in w.checkouts && HasEnded(w.checkouts[id]) {
      assert id in Ids(w.log, false);
      var i :| 0 <= i < |w.log| && w.log[i].event.Terminal? && w.log[i].transactionId == id;
    }
  }

  function LogsOf(runs: seq<seq<Move>>): Logs {
    seq(|runs|, w requires 0 <= w < |runs| => Run(runs[w]).log)
  }

  function OpenCounts(runs: seq<seq<Move>>): seq<int> {
    seq(|runs|, w requires 0 <= w < |runs| => |Open(Run(runs[w]))|)
  }

  /** From users to the merged artifact: however the logs of all workers are interleaved, the count
      at the end is the number of checkouts left open on all workers together. */
  lemma MergedCountIsOpenCheckouts(runs: seq<seq<Move>>, merged: seq<Record>, origin: seq<nat>)
    requires Interleaves(LogsOf(runs), merged, origin)
    ensures CountAfter(merged) == Sum(OpenCounts(runs))
  {
    var logs := LogsOf(runs);
    forall w | 0 <= w < |runs| ensures Paired(logs[w]) && CountAfter(logs[w]) == |Open(Run(runs[w]))| {
      LogIsPaired(runs[w]);
      OutstandingIsOpenCheckouts(runs[w]);
    }
    TotalIsSum(logs, merged, origin, |merged|);
    assert merged[..|merged|] == merged && origin[..|origin|] == origin;
    assert OwnCounts(logs, merged, origin) == OpenCounts(runs);
  }
}
