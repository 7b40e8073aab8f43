/**
 What each checkout ends with, stated over all that its coroutine meets and apart from how it steps:
 the outcome is fixed by the first thing that decides it (NatsAdapter._checkout_to_outcome and
 _open_order_event_stream in src/benchmarkservice/locustfile.py).
 */
module CheckoutEndings {
  import opened Options
  import opened OutstandingLog
  import opened CheckoutOutcome

  type Stimuli = seq<(real, Stimulus)>

  predicate AnswersPost(s: Stimulus) {
    s.Posted? || s.Exception?
  }

  predicate AnswersLocation(s: Stimulus) {
    s.LocationRead? || s.Exception?
  }

  /** The first stimulus at or after `from` that answers. */
  ghost predicate IsFirst(stimuli: Stimuli, from: nat, i: nat, answers: Stimulus -> bool) {
    && from <= i < |stimuli| && answers(stimuli[i].1)
    && forall j :: from <= j < i ==> !answers(stimuli[j].1)
  }

  /** A response that opens a stream of order events. */
  predicate OpensStream(s: Stimulus) {
    s.Opened? && s.status == 200 && s.isEventStream
  }

  /** Is a stream open after the first `n` stimuli, of which those from `from` on count? It was opened
      and has not broken since. */
  function StreamOpen(stimuli: Stimuli, from: nat, n: nat): bool
    requires n <= |stimuli|
  {
    if n <= from then false
    else if OpensStream(stimuli[n - 1].1) then true
    else if stimuli[n - 1].1.StreamBroken? then false
    else StreamOpen(stimuli, from, n - 1)
  }

  /** An order event for another order than the one that was accepted, if that was named. */
  predicate IsForeign(orderId: Option<string>, s: Stimulus)
    requires s.OrderEvent?
  {
    orderId.Some? && orderId.value != "" && s.eventOrderId != orderId.value
  }

  /** What an accepted checkout that waits for its order ends with on a stimulus, if that ends it. */
  function Ending(orderId: Option<string>, open: bool, s: Stimulus): Option<string> {
    match s
    case DeadlinePassed(drainFirst) => Some(if drainFirst then "INCOMPLETE" else "TIMEOUT")
    case Opened(status, isEventStream) =>
      if open || status == 404 || status == 503 || (status == 200 && isEventStream) then None
      else if status == 0 then Some("TIMEOUT")
      else if status == 200 then Some("INVALID_RESPONSE")
      else Some("STATUS_ERROR")
    case ProtocolError => if open then Some("INVALID_RESPONSE") else None
    case OrderEvent(eventOrderId, status) =>
      if !open then None
      else if IsForeign(orderId, s) then Some("INVALID_RESPONSE")
      else if status in {"COMPLETED", "CANCELLED", "REJECTED", "MANUAL_REVIEW"} then Some(status)
      else None
    case _ => None
  }

  /** The stimulus at `i` ends the wait that began at `from`. */
  predicate EndsWait(stimuli: Stimuli, from: nat, i: nat, orderId: Option<string>)
    requires i < |stimuli|
  {
    stimuli[i].1.Exception? || Ending(orderId, StreamOpen(stimuli, from, i), stimuli[i].1).Some?
  }

  ghost predicate FirstEnd(stimuli: Stimuli, from: nat, i: nat, orderId: Option<string>) {
    && from <= i < |stimuli| && EndsWait(stimuli, from, i, orderId)
    && forall j :: from <= j < i ==> !EndsWait(stimuli, from, j, orderId)
  }

  /** A checkout that was accepted. */
  predicate Accepts(s: Stimulus) {
    s.Posted? && s.status == 202 && s.location.Some? && s.location.value != ""
  }

  // ----- Stage by stage -----

  lemma Snoc(stimuli: Stimuli, n: nat)
    requires n < |stimuli|
    ensures After(stimuli[..n + 1]) == Advance(After(stimuli[..n]), stimuli[n].1).0
  {
    assert stimuli[..n + 1][..n] == stimuli[..n];
  }

  lemma {:induction false} StillPosting(stimuli: Stimuli, n: nat)
    requires n <= |stimuli| && forall j :: 0 <= j < n ==> !AnswersPost(stimuli[j].1)
    ensures After(stimuli[..n]) == NEW
  {
    if n > 0 {
      StillPosting(stimuli, n - 1);
      Snoc(stimuli, n - 1);
    }
  }

  /** A checkout between its acceptance and its end. */
  ghost predicate IsOpenCheckout(c: Checkout, orderId: Option<string>) {
    c.accepted && c.orderId == orderId && c.outcome == "UNKNOWN"
  }

  lemma {:induction false} StillLocated(stimuli: Stimuli, p: nat, n: nat)
    requires p < n <= |stimuli| && IsFirst(stimuli, 0, p, AnswersPost) && Accepts(stimuli[p].1)
    requires forall j :: p < j < n ==> !AnswersLocation(stimuli[j].1)
    ensures var c := After(stimuli[..n]);
            c.stage.Located? && !c.stream && IsOpenCheckout(c, stimuli[p].1.orderId)
  {
    Snoc(stimuli, n - 1);
    if n == p + 1 {
      StillPosting(stimuli, p);
    } else {
      StillLocated(stimuli, p, n - 1);
    }
  }

  /** The wait for the order begins at `from`, after the post at `p` was accepted and its location
      read. */
  ghost predicate WaitsFrom(stimuli: Stimuli, p: nat, from: nat) {
    && IsFirst(stimuli, 0, p, AnswersPost) && Accepts(stimuli[p].1)
    && p + 1 < from && IsFirst(stimuli, p + 1, from - 1, AnswersLocation)
    && stimuli[from - 1].1.LocationRead? && stimuli[from - 1].1.hasPath
  }

  lemma WaitStep(c: Checkout, s: Stimulus, orderId: Option<string>)
    requires c.stage.Waiting? && IsOpenCheckout(c, orderId) && !s.Exception? && Ending(orderId, c.stream, s).None?
    ensures var next := Advance(c, s).0;
            && next.stage.Waiting? && IsOpenCheckout(next, orderId)
            && (next.stream <==> OpensStream(s) || (c.stream && !s.StreamBroken?))
  {
  }

  lemma {:induction false} StillWaiting(stimuli: Stimuli, p: nat, from: nat, n: nat)
    requires WaitsFrom(stimuli, p, from) && from <= n <= |stimuli|
    requires forall j :: from <= j < n ==> !EndsWait(stimuli, from, j, stimuli[p].1.orderId)
    ensures var c := After(stimuli[..n]);
            && c.stage.Waiting? && IsOpenCheckout(c, stimuli[p].1.orderId)
            && (c.stream <==> StreamOpen(stimuli, from, n))
    decreases n
  {
    Snoc(stimuli, n - 1);
    if n == from {
      StillLocated(stimuli, p, from - 1);
    } else {
      StillWaiting(stimuli, p, from, n - 1);
      assert !EndsWait(stimuli, from, n - 1, stimuli[p].1.orderId);
      WaitStep(After(stimuli[..n - 1]), stimuli[n - 1].1, stimuli[p].1.orderId);
    }
  }

  predicate IsOver(c: Checkout) {
    c.stage.Closing? || c.stage.Reported? || c.stage.Abandoned?
  }

  /** An ended checkout keeps its outcome, and once reported stays so. */
  predicate Remains(c: Checkout, next: Checkout) {
    && IsOver(c) && IsOver(next) && next.outcome == c.outcome && next.accepted == c.accepted
    && (next.stage.Abandoned? <==> c.stage.Abandoned?) && (c.stage.Reported? ==> next.stage.Reported?)
  }

  lemma OverStep(c: Checkout, s: Stimulus)
    requires IsOver(c)
    ensures Remains(c, Advance(c, s).0)
    ensures s.Report? && !c.stage.Abandoned? ==> Advance(c, s).0.stage.Reported?
  {
  }

  lemma OverNext(stimuli: Stimuli, n: nat)
    requires n < |stimuli| && IsOver(After(stimuli[..n]))
    ensures Remains(After(stimuli[..n]), After(stimuli[..n + 1]))
    ensures stimuli[n].1.Report? && !After(stimuli[..n]).stage.Abandoned? ==> After(stimuli[..n + 1]).stage.Reported?
  {
    Snoc(stimuli, n);
    OverStep(After(stimuli[..n]), stimuli[n].1);
  }

  lemma RemainsOn(a: Checkout, b: Checkout, c: Checkout)
    requires Remains(a, b) && Remains(b, c)
    ensures Remains(a, c)
  {
  }

  lemma {:induction false} OverStays(stimuli: Stimuli, m: nat, n: nat)
    requires m <= n <= |stimuli| && IsOver(After(stimuli[..m]))
    ensures Remains(After(stimuli[..m]), After(stimuli[..n]))
    decreases n
  {
    if m < n {
      OverStays(stimuli, m, n - 1);
      OverNext(stimuli, n - 1);
      RemainsOn(After(stimuli[..m]), After(stimuli[..n - 1]), After(stimuli[..n]));
    }
  }

  /** The checkout after all stimuli remains what it was when it ended. */
  lemma OverForGood(stimuli: Stimuli, m: nat)
    requires m <= |stimuli| && IsOver(After(stimuli[..m]))
    ensures Remains(After(stimuli[..m]), After(stimuli))
  {
    OverStays(stimuli, m, |stimuli|);
    assert stimuli[..|stimuli|] == stimuli;
  }

  // ----- Theorems -----

  /** A post that is not accepted ends the checkout at once, and it logs nothing. */
  lemma RefusedPost(stimuli: Stimuli, p: nat)
    requires IsFirst(stimuli, 0, p, AnswersPost) && stimuli[p].1.Posted? && !Accepts(stimuli[p].1)
    ensures var c := After(stimuli);
            && (c.stage.Closing? || c.stage.Reported?) && !c.accepted
            && c.outcome == if stimuli[p].1.status == 202 then "INVALID_RESPONSE"
                            else if stimuli[p].1.status == 0 then "TIMEOUT"
                            else "HTTP_FAILURE"
  {
    StillPosting(stimuli, p);
    Snoc(stimuli, p);
    OverForGood(stimuli, p + 1);
  }

  /** An accepted checkout whose location leads nowhere is invalid. */
  lemma BadLocation(stimuli: Stimuli, p: nat, l: nat)
    requires IsFirst(stimuli, 0, p, AnswersPost) && Accepts(stimuli[p].1)
    requires IsFirst(stimuli, p + 1, l, AnswersLocation) && stimuli[l].1 == LocationRead(false)
    ensures var c := After(stimuli);
            (c.stage.Closing? || c.stage.Reported?) && c.accepted && c.outcome == "INVALID_RESPONSE"
  {
    StillLocated(stimuli, p, l);
    Snoc(stimuli, l);
    OverForGood(stimuli, l + 1);
  }

  /** An accepted checkout that waits for its order ends with exactly what the first stimulus to end
      the wait says, whatever comes after it: a terminal status of its own order as it was sent, a
      foreign order, a broken protocol, a refused stream, or the deadline. Broken streams, 404 and 503
      do not end it. An exception abandons it. */
  lemma FirstEndDecides(stimuli: Stimuli, p: nat, from: nat, i: nat)
    requires WaitsFrom(stimuli, p, from) && FirstEnd(stimuli, from, i, stimuli[p].1.orderId)
    ensures var c := After(stimuli);
            && c.accepted
            && if stimuli[i].1.Exception? then c.stage.Abandoned?
               else
                 && (c.stage.Closing? || c.stage.Reported?)
                 && Some(c.outcome) == Ending(stimuli[p].1.orderId, StreamOpen(stimuli, from, i), stimuli[i].1)
  {
    StillWaiting(stimuli, p, from, i);
    Snoc(stimuli, i);
    OverForGood(stimuli, i + 1);
  }

  /** Without such a stimulus it still waits. */
  lemma WaitsOtherwise(stimuli: Stimuli, p: nat, from: nat)
    requires WaitsFrom(stimuli, p, from) && from <= |stimuli|
    requires forall j :: from <= j < |stimuli| ==> !EndsWait(stimuli, from, j, stimuli[p].1.orderId)
    ensures After(stimuli).stage.Waiting? && After(stimuli).accepted && After(stimuli).outcome == "UNKNOWN"
  {
    StillWaiting(stimuli, p, from, |stimuli|);
    assert stimuli[..|stimuli|] == stimuli;
  }

  lemma EndedThere(stimuli: Stimuli, p: nat, from: nat, i: nat)
    requires WaitsFrom(stimuli, p, from) && FirstEnd(stimuli, from, i, stimuli[p].1.orderId)
    ensures IsOver(After(stimuli[..i + 1]))
    ensures After(stimuli[..i + 1]).stage.Abandoned? <==> stimuli[i].1.Exception?
  {
    StillWaiting(stimuli, p, from, i);
    Snoc(stimuli, i);
  }

  /** Once it is reported, an ended checkout is reported for good. */
  lemma ReportedThen(stimuli: Stimuli, m: nat, k: nat)
    requires m <= k < |stimuli| && stimuli[k].1.Report?
    requires IsOver(After(stimuli[..m])) && !After(stimuli[..m]).stage.Abandoned?
    ensures After(stimuli).stage.Reported?
  {
    OverStays(stimuli, m, k);
    OverNext(stimuli, k);
    OverForGood(stimuli, k + 1);
  }

  /** From the stimuli to the log: an accepted checkout that ends and is reported has logged its
      acceptance and then exactly what the first stimulus to end its wait says, and counts as
      completed if that is COMPLETED. */
  method LoggedEnding(recorder: ArtifactRecorder, id: string, stimuli: Stimuli, p: nat, from: nat, i: nat, k: nat)
    requires recorder.Valid()
    requires WaitsFrom(stimuli, p, from) && FirstEnd(stimuli, from, i, stimuli[p].1.orderId)
    requires !stimuli[i].1.Exception? && i < k < |stimuli| && stimuli[k].1.Report?
    modifies recorder
    ensures var ending := Ending(stimuli[p].1.orderId, StreamOpen(stimuli, from, i), stimuli[i].1);
            && ending.Some?
            && EventsOf(recorder.log) == EventsOf(old(recorder.log)) + [(id, Accepted), (id, Terminal(ending.value))]
            && recorder.completedCount == old(recorder.completedCount) + if ending.value == "COMPLETED" then 1 else 0
  {
    FirstEndDecides(stimuli, p, from, i);
    EndedThere(stimuli, p, from, i);
    ReportedThen(stimuli, i + 1, k);
    var c := CheckoutToOutcome(recorder, id, stimuli);
  }
}
