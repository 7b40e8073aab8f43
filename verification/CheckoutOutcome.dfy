/**
 From a checkout request to the outcome of its order, over the shared outstanding-order log
 (NatsAdapter._checkout_to_outcome in src/benchmarkservice/locustfile.py, with the recorder of
 src/benchmarkservice/runtime.py). Any number of users check out at once.
 */
module CheckoutOutcome {
  import opened Options
  import opened OutstandingLog

  /** Posting the checkout; accepted, the Location not yet read; waiting for the order's events;
      the outcome is in the context but not yet reported; reported; given up by an exception. */
  datatype Stage = Posting | Located | Waiting | Closing | Reported | Abandoned

  datatype Checkout = Checkout(
    stage: Stage, accepted: bool, orderId: Option<string>, outcome: string, stream: bool, reconnects: nat)

  const NEW := Checkout(Posting, false, None, "UNKNOWN", false, 0)

  /** What a user's coroutine meets next. */
  datatype Stimulus =
    | Posted(status: int, location: Option<string>, orderId: Option<string>)
    | LocationRead(hasPath: bool)
    | Opened(status: int, isEventStream: bool)
    | OrderEvent(eventOrderId: string, orderStatus: string)
    | StreamBroken
    | ProtocolError
    | DeadlinePassed(drainFirst: bool)
    | Report
    | Exception

  const TERMINAL_STATUSES := {"COMPLETED", "CANCELLED", "REJECTED", "MANUAL_REVIEW"}

  function StatusOutcome(status: int, fallback: string): string {
    if status == 0 then "TIMEOUT" else fallback
  }

  function Given(value: Option<string>): bool {
    value.Some? && value.value != ""
  }

  /** The checkout ends with an outcome, which an accepted one also logs. */
  function Close(c: Checkout, outcome: string): (Checkout, Option<Event>) {
    (c.(stage := Closing, outcome := outcome, stream := false), if c.accepted then Some(Terminal(outcome)) else None)
  }

  /** One step of a checkout and what it adds to the log; a stimulus that cannot come now changes
      nothing. */
  function Advance(c: Checkout, s: Stimulus): (Checkout, Option<Event>) {
    match (c.stage, s)
    case (Posting, Posted(status, location, orderId)) =>
      if status != 202 then Close(c, StatusOutcome(status, "HTTP_FAILURE"))
      else if !Given(location) then Close(c, "INVALID_RESPONSE")
      else (c.(stage := Located, accepted := true, orderId := orderId), Some(Accepted))
    case (Located, LocationRead(hasPath)) =>
      if !hasPath then Close(c, "INVALID_RESPONSE") else (c.(stage := Waiting), None)
    case (Waiting, Opened(status, isEventStream)) =>
      if c.stream then (c, None)
      else if status == 404 || status == 503 then (c.(reconnects := c.reconnects + 1), None)
      else if status != 200 then Close(c, StatusOutcome(status, "STATUS_ERROR"))
      else if !isEventStream then Close(c, "INVALID_RESPONSE")
      else (c.(stream := true), None)
    case (Waiting, OrderEvent(orderId, status)) =>
      if !c.stream then (c, None)
      else if Given(c.orderId) && orderId != c.orderId.value then Close(c.(reconnects := 0), "INVALID_RESPONSE")
      else if status !in TERMINAL_STATUSES then (c.(reconnects := 0), None)
      else Close(c.(reconnects := 0, orderId := Some(orderId)), status)
    case (Waiting, StreamBroken) =>
      if !c.stream then (c, None) else (c.(stream := false, reconnects := c.reconnects + 1), None)
    case (Waiting, ProtocolError) => if !c.stream then (c, None) else Close(c, "INVALID_RESPONSE")
    case (Waiting, DeadlinePassed(drainFirst)) => Close(c, if drainFirst then "INCOMPLETE" else "TIMEOUT")
    case (Closing, Report) => (c.(stage := Reported), None)
    case (Posting, Exception) => (c.(stage := Abandoned), None)
    case (Located, Exception) => (c.(stage := Abandoned), None)
    case (Waiting, Exception) => (c.(stage := Abandoned), None)
    case _ => (c, None)
  }

  function Logged(log: seq<Record>, now: real, id: string, event: Option<Event>): seq<Record> {
    if event.None? then log else log + [Record(now, event.value, id, OutstandingLog.Step(CountAfter(log), event.value))]
  }

  // ----- One user -----

  /** What a checkout adds to the recorder's count of completed ones. */
  function CompletedBy(c: Checkout): nat {
    if c.stage.Reported? && c.outcome == "COMPLETED" then 1 else 0
  }

  method Finish(recorder: ArtifactRecorder, now: real, id: string, c: Checkout,
      outcome: string) returns (next: Checkout)
    requires recorder.Valid() && c.accepted
    modifies recorder
    ensures recorder.Valid() && recorder.completedCount == old(recorder.completedCount)
    ensures next == Close(c, outcome).0 && recorder.log == Logged(old(recorder.log), now, id, Close(c, outcome).1)
  {
    next := c.(stage := Closing, outcome := outcome, stream := false);
    recorder.Finish(now, id, outcome);
    CountSnoc(old(recorder.log), recorder.log[|old(recorder.log)|]);
    assert recorder.log == old(recorder.log) + [recorder.log[|old(recorder.log)|]];
    assert recorder.log[..|old(recorder.log)| + 1] == recorder.log;
  }

  /** What the coroutine does at its next stimulus. */
  method React(recorder: ArtifactRecorder, now: real, id: string, c: Checkout, s: Stimulus) returns (next: Checkout)
    requires recorder.Valid() && (c.stage.Located? || c.stage.Waiting? ==> c.accepted) && (c.stage.Posting? ==>
        !c.accepted)
    modifies recorder
    ensures recorder.Valid()
    ensures next == Advance(c, s).0 && recorder.log == Logged(old(recorder.log), now, id, Advance(c, s).1)
    ensures recorder.completedCount == old(recorder.completedCount) + CompletedBy(next) - CompletedBy(c)
  {
    next := c;
    if c.stage.Posting? && s.Posted? {
      if s.status != 202 {
        next := c.(stage := Closing, outcome := StatusOutcome(s.status, "HTTP_FAILURE"), stream := false);
      } else if s.location.None? || s.location.value == "" {
        next := c.(stage := Closing, outcome := "INVALID_RESPONSE", stream := false);
      } else {
        next := c.(stage := Located, accepted := true, orderId := s.orderId);
        recorder.Accept(now, id);
      }
    } else if c.stage.Located? && s.LocationRead? {
      if s.hasPath {
        next := c.(stage := Waiting);
      } else {
        next := Finish(recorder, now, id, c, "INVALID_RESPONSE");
      }
    } else if c.stage.Waiting? && s.DeadlinePassed? {
      next := Finish(recorder, now, id, c, if s.drainFirst then "INCOMPLETE" else "TIMEOUT");
    } else if c.stage.Waiting? && !c.stream && s.Opened? {
      if s.status in {404, 503} {
        next := c.(reconnects := c.reconnects + 1);
      } else if s.status != 200 {
        next := Finish(recorder, now, id, c, StatusOutcome(s.status, "STATUS_ERROR"));
      } else if !s.isEventStream {
        next := Finish(recorder, now, id, c, "INVALID_RESPONSE");
      } else {
        next := c.(stream := true);
      }
    } else if c.stage.Waiting? && c.stream && s.OrderEvent? {
      if c.orderId.Some? && c.orderId.value != "" && s.eventOrderId != c.orderId.value {
        next := Finish(recorder, now, id, c.(reconnects := 0), "INVALID_RESPONSE");
      } else if s.orderStatus in TERMINAL_STATUSES {
        next := Finish(recorder, now, id, c.(reconnects := 0, orderId := Some(s.eventOrderId)), s.orderStatus);
      } else {
        next := c.(reconnects := 0);
      }
    } else if c.stage.Waiting? && c.stream && s.StreamBroken? {
      next := c.(stream := false, reconnects := c.reconnects + 1);
    } else if c.stage.Waiting? && c.stream && s.ProtocolError? {
      next := Finish(recorder, now, id, c, "INVALID_RESPONSE");
    } else if c.stage.Closing? && s.Report? {
      next := c.(stage := Reported);
      if c.outcome == "COMPLETED" {
        recorder.Complete();
      }
    } else if s.Exception? && (c.stage.Posting? || c.stage.Located? || c.stage.Waiting?) {
      next := c.(stage := Abandoned);
    }
  }

  /** What a checkout in some stage has logged. */
  function LoggedBy(c: Checkout, id: string): seq<(string, Event)> {
    if !c.accepted then []
    else if c.stage.Closing? || c.stage.Reported? then [(id, Accepted), (id, Terminal(c.outcome))]
    else [(id, Accepted)]
  }

  function EventsOf(log: seq<Record>): seq<(string, Event)> {
    seq(|log|, i requires 0 <= i < |log| => (log[i].transactionId, log[i].event))
  }

  lemma StepLogs(c: Checkout, s: Stimulus, now: real, id: string, log: seq<Record>, base: seq<(string, Event)>)
    requires Proper(c) && EventsOf(log) == base + LoggedBy(c, id)
    ensures EventsOf(Logged(log, now, id, Advance(c, s).1)) == base + LoggedBy(Advance(c, s).0, id)
  {
    AdvanceLogs(c, s, id);
    var event := Advance(c, s).1;
    if event.Some? {
      assert EventsOf(Logged(log, now, id, event)) == EventsOf(log) + [(id, event.value)];
    }
  }

  /** A checkout after all the stimuli of its coroutine. */
  function After(stimuli: seq<(real, Stimulus)>): Checkout
    decreases |stimuli|
  {
    if stimuli == [] then NEW
    else Advance(After(stimuli[..|stimuli| - 1]), stimuli[|stimuli| - 1].1).0
  }

  /** A checkout alone: an accepted one logs its acceptance and then its outcome, once each, and the
      outcome is the one in its context; any other logs nothing. It counts as completed once, when
      that outcome is COMPLETED. */
  method CheckoutToOutcome(recorder: ArtifactRecorder, id: string, stimuli: seq<(real, Stimulus)>) returns (c: Checkout)
    requires recorder.Valid()
    modifies recorder
    ensures recorder.Valid() && c == After(stimuli)
    ensures EventsOf(recorder.log) == EventsOf(old(recorder.log)) + LoggedBy(c, id)
    ensures recorder.completedCount == old(recorder.completedCount) + CompletedBy(c)
  {
    c := NEW;
    for i := 0 to |stimuli|
      invariant recorder.Valid() && Proper(c) && c == After(stimuli[..i])
      invariant EventsOf(recorder.log) == EventsOf(old(recorder.log)) + LoggedBy(c, id)
      invariant recorder.completedCount == old(recorder.completedCount) + CompletedBy(c)
    {
      assert stimuli[..i + 1][..i] == stimuli[..i];
      StepLogs(c, stimuli[i].1, stimuli[i].0, id, recorder.log, EventsOf(old(recorder.log)));
      AdvanceKeepsProper(c, stimuli[i].1);
      c := React(recorder, stimuli[i].0, id, c, stimuli[i].1);
    }
    assert stimuli[..|stimuli|] == stimuli;
  }

  /** Which parts of a checkout go together. */
  predicate Proper(c: Checkout) {
    && (c.stage.Posting? ==> !c.accepted && c.outcome == "UNKNOWN")
    && (c.stage.Located? || c.stage.Waiting? ==> c.accepted && c.outcome == "UNKNOWN")
    && (c.stage.Closing? || c.stage.Reported? ==> c.outcome == "COMPLETED" ==> c.accepted && c.orderId.Some?)
    && (c.stage.Abandoned? ==> c.outcome == "UNKNOWN")
  }

  lemma AdvanceKeepsProper(c: Checkout, s: Stimulus)
    requires Proper(c)
    ensures Proper(Advance(c, s).0)
  {
  }

  lemma AdvanceLogs(c: Checkout, s: Stimulus, id: string)
    requires Proper(c)
    ensures LoggedBy(Advance(c, s).0, id)
         == LoggedBy(c, id) + if Advance(c, s).1.None? then [] else [(id, Advance(c, s).1.value)]
  {
  }

  /** An order event that ends a checkout with its status. */
  predicate IsFinal(accepted: Stimulus, s: Stimulus, status: string) {
    && accepted.Posted? && accepted.status == 202 && s.OrderEvent? && s.orderStatus == status
    && (Given(accepted.orderId) ==> s.eventOrderId == accepted.orderId.value)
  }

  /** A checkout is reported completed only on an order event that says so, for the order that the
      checkout's 202 response named, received after that response. */
  lemma {:induction false} CompletedWasSent(stimuli: seq<(real, Stimulus)>)
    returns (i: nat, j: nat)
    requires After(stimuli).outcome == "COMPLETED"
    ensures i < j < |stimuli| && IsFinal(stimuli[i].1, stimuli[j].1, "COMPLETED")
    decreases |stimuli|
  {
    var n := |stimuli| - 1;
    if n < 0 {
      assert false;
    } else if After(stimuli[..n]).outcome == "COMPLETED" {
      i, j := CompletedWasSent(stimuli[..n]);
    } else {
      WaitingProper(stimuli[..n]);
      i := AcceptedWasPosted(stimuli[..n]);
      j := n;
    }
  }

  lemma {:induction false} WaitingProper(stimuli: seq<(real, Stimulus)>)
    ensures Proper(After(stimuli))
    decreases |stimuli|
  {
    if stimuli != [] {
      WaitingProper(stimuli[..|stimuli| - 1]);
      AdvanceKeepsProper(After(stimuli[..|stimuli| - 1]), stimuli[|stimuli| - 1].1);
    }
  }

  lemma {:induction false} AcceptedWasPosted(stimuli: seq<(real, Stimulus)>) returns (i: nat)
    requires After(stimuli).stage.Located? || After(stimuli).stage.Waiting?
    ensures i < |stimuli| && stimuli[i].1.Posted? && stimuli[i].1.status == 202
        && stimuli[i].1.orderId == After(stimuli).orderId
    decreases |stimuli|
  {
    var n := |stimuli| - 1;
    if After(stimuli[..n]).stage.Posting? {
      i := n;
    } else {
      i := AcceptedWasPosted(stimuli[..n]);
    }
  }
}
