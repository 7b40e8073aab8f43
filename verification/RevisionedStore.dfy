/**
 One key of the shared JetStream key-value bucket, and the recovery loop around its updates
 (src/benchmarkservice/shared_store.py).

 A key is the list of writes that landed on it. Its revision is the length of that list, 0 when
 the key is absent; only the order and equality of revisions are ever used. A create is a
 compare-and-set at revision 0.
 */
module RevisionedStore {
  import opened Options

  /** A compare-and-set request: `value` is stored if the key still has revision `expected`. */
  datatype Write<V> = Write(writer: nat, expected: nat, value: V)

  function Land<V>(history: seq<Write<V>>, write: Write<V>): seq<Write<V>> {
    if write.expected == |history| then history + [write] else history
  }

  predicate Landed<V(==)>(history: seq<Write<V>>, write: Write<V>) {
    write.expected < |history| && history[write.expected] == write
  }

  /** The value a reader of revision `revision` sees. */
  function ValueAt<V>(history: seq<Write<V>>, revision: nat): Option<V>
    requires revision <= |history|
  {
    if revision == 0 then None else Some(history[revision - 1].value)
  }

  /** Nothing that landed between `before` and `history` was written by `me`. */
  predicate WroteNothing<V>(before: seq<Write<V>>, history: seq<Write<V>>, me: nat) {
    forall i :: |before| <= i < |history| ==> history[i].writer != me
  }

  /** Everything that landed between `before` and `history` was written by `me`. */
  predicate OnlyWrote<V>(before: seq<Write<V>>, history: seq<Write<V>>, me: nat) {
    forall i :: |before| <= i < |history| ==> history[i].writer == me
  }

  /** How one try of an operation ends: the reply arrives, or the operation takes effect but its
      reply is lost, or the request is lost. */
  datatype Delivery = Replied | ReplyLost | RequestLost

  /** An answer arrives, and none was lost before it. */
  predicate OneReply(deliveries: seq<Delivery>) {
    Replied in deliveries && ReplyLost !in deliveries
  }

  datatype UpdateResult = Updated(revision: nat) | RevisionConflict | GaveUp

  class Key<V(==)> {
    var history: seq<Write<V>>

    constructor ()
      ensures history == []
    {
      history := [];
    }

    method Get() returns (value: Option<V>, revision: nat)
      ensures revision == |history| && value == ValueAt(history, revision)
    {
      revision := |history|;
      value := if revision == 0 then None else Some(history[revision - 1].value);
    }

    method CompareAndSet(write: Write<V>) returns (landed: bool)
      modifies this
      ensures history == Land(old(history), write)
      ensures landed <==> write.expected == |old(history)|
    {
      landed := write.expected == |history|;
      if landed {
        history := history + [write];
      }
    }

    /** Any number of writes by other clients. */
    method OtherClients(me: nat)
      modifies this
      ensures old(history) <= history
      ensures WroteNothing(old(history), history, me)
    {
      var later: seq<Write<V>> := *;
      if history <= later && WroteNothing(history, later, me) {
        history := later;
      }
    }

    /**
     The recovery loop: the same request is replayed after every lost reply or request, until the
     deadline (the end of `deliveries`). The write lands at most once whatever is lost. Success
     means this write is the one stored at its revision. A conflict means that revision is taken,
     and it is taken by this very write only if an earlier reply was lost.
     */
    method UpdateWithRecovery(write: Write<V>, deliveries: seq<Delivery>) returns (result: UpdateResult)
      requires write.expected <= |history|
      modifies this
      ensures old(history) <= history
      ensures forall i :: |old(history)| <= i < |history| && history[i].writer == write.writer ==>
          i == write.expected && history[i] == write
      ensures result.Updated? ==> result.revision == write.expected + 1 == |history| && Landed(history, write)
      ensures result.RevisionConflict? ==> write.expected < |history|
      ensures result.RevisionConflict? && |old(history)| == write.expected && Landed(history, write) ==>
          ReplyLost in deliveries
      ensures Replied in deliveries ==> !result.GaveUp?
      ensures ReplyLost !in deliveries && !result.Updated? ==> WroteNothing(old(history), history, write.writer)
    {
      var tried := 0;
      while tried < |deliveries|
        invariant 0 <= tried <= |deliveries|
        invariant old(history) <= history
        invariant forall i :: |old(history)| <= i < |history| && history[i].writer == write.writer ==>
            i == write.expected && history[i] == write
        invariant Replied !in deliveries[..tried]
        invariant ReplyLost in deliveries[..tried] || WroteNothing(old(history), history, write.writer)
      {
        OtherClients(write.writer);
        if deliveries[tried] != RequestLost {
          var landed := CompareAndSet(write);
          if deliveries[tried] == Replied {
            return if landed then Updated(write.expected + 1) else RevisionConflict;
          }
        }
        tried := tried + 1;
      }
      return GaveUp;
    }
  }

  /** Once landed, a write stays landed, and nothing else can land at its revision. */
  lemma LandedIsStable<V>(history: seq<Write<V>>, write: Write<V>, other: Write<V>)
    requires Landed(history, write)
    ensures Landed(Land(history, other), write)
    ensures other.expected == write.expected ==> Land(history, other) == history
  {
  }
}
