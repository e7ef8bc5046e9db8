/**
 * Schedule delivery as a whole: subscribers that handle whatever notifications reach them, and the
 * summary of all their logs (src/workloads/schedule-delivery.ts, src/orchestration/schedule-delivery.ts).
 */
module ScheduleRun {
  import opened Wrappers
  import opened Sequences
  import opened ScheduleDelivery

  // ---------- what the summary demands of the logs ----------

  ghost predicate LogsDeliver(logs: seq<WorkerLog>, fires: nat)
    requires LogsReadable(logs, fires)
  {
    var observed := Observed(Completions(logs));
    && observed.broadcast == fires * |logs| && observed.single == fires && observed.cancelled == 0
    && observed.duplicates == 0 && observed.invalid == 0
    && (forall s: nat :: s < fires ==> |BroadcastWorkers(logs, s)| == |logs|)
    && (forall s: nat :: s < fires ==> SingleCount(logs, s) == 1)
    && SaturatedWorkers(logs) == {}
    && forall w :: 0 <= w < |logs| ==> logs[w].complete.value.broadcast == fires
  }

  lemma EvidenceDecides(e: Evidence, logs: seq<WorkerLog>, fires: nat)
    requires LogsReadable(logs, fires) && EvidenceOf(e, logs, fires)
    ensures Delivered(e) <==> LogsDeliver(logs, fires)
  {
    assert e.subscriberBroadcast == Broadcasts(Completions(logs));
    assert forall w :: 0 <= w < |logs| ==> e.subscriberBroadcast[w] == logs[w].complete.value.broadcast;
  }

  /** The analysis of the logs and the check of its evidence. */
  method SummarizeScheduleDeliveryLogs(logs: seq<WorkerLog>, firesPerMode: nat, expectedReplicas: nat)
    returns (r: Option<Completion>)
    ensures r.Some? <==>
              |logs| == expectedReplicas && LogsReadable(logs, firesPerMode) && LogsDeliver(logs, firesPerMode)
    ensures r.Some? ==> r.value == Observed(Completions(logs))
  {
    var evidence := AnalyzeScheduleDeliveryLogs(logs, firesPerMode, expectedReplicas);
    if evidence.Err? {
      return None;
    }
    EvidenceDecides(evidence.value, logs, firesPerMode);
    if !Delivered(evidence.value) {
      return None;
    }
    return Some(evidence.value.observed);
  }

  // ---------- subscribers ----------

  /** What leaves a record in a subscriber's log: a notification it handles, or an event of its client. */
  datatype Input = Notified(notification: Notification) | Client(saturated: bool)

  function Notifications(inputs: seq<Input>): seq<Notification> {
    if inputs == [] then []
    else
      var front, last := Notifications(inputs[..|inputs| - 1]), inputs[|inputs| - 1];
      if last.Notified? then front + [last.notification] else front
  }

  function RecordOf(input: Input, operations: nat, fireAtMs: int): Record {
    if input.Notified? then LoggedBy(input.notification, operations, fireAtMs) else ClientEvent(input.saturated)
  }

  function Records(inputs: seq<Input>, operations: nat, fireAtMs: int): (r: seq<Record>)
    ensures |r| == |inputs| && forall i :: 0 <= i < |r| ==> r[i] == RecordOf(inputs[i], operations, fireAtMs)
  {
    seq(|inputs|, i requires 0 <= i < |inputs| => RecordOf(inputs[i], operations, fireAtMs))
  }

  function CompletionOf(t: Tally): Completion {
    Completion(t.broadcast, t.single, t.cancelled, t.duplicates, t.invalid, t.maxLatenessMs)
  }

  /** The log of a subscriber: a record for every input, and at the end its tallies. */
  function LogOf(inputs: seq<Input>, operations: nat, fireAtMs: int): WorkerLog {
    WorkerLog(Some(CompletionOf(Handled(Notifications(inputs), operations, fireAtMs))),
              Records(inputs, operations, fireAtMs))
  }

  /** The logs of all subscribers: whatever they were notified of, the analysis can read them. */
  function Logs(runs: seq<seq<Input>>, operations: nat, fireAtMs: int): (logs: seq<WorkerLog>)
    ensures |logs| == |runs| && forall w :: 0 <= w < |logs| ==> logs[w] == LogOf(runs[w], operations, fireAtMs)
    ensures LogsReadable(logs, operations)
  {
    seq(|runs|, w requires 0 <= w < |runs| => LogOf(runs[w], operations, fireAtMs))
  }

  lemma HandledNext(notifications: seq<Notification>, n: Notification, operations: nat, fireAtMs: int)
    ensures Handled(notifications + [n], operations, fireAtMs)
         == AfterNotification(Handled(notifications, operations, fireAtMs), n, operations, fireAtMs)
  {
    assert (notifications + [n])[..|notifications|] == notifications;
  }

  /** Client events among the records do not change what the records list. */
  lemma {:induction false} ListedByInputs(inputs: seq<Input>, operations: nat, fireAtMs: int, kind: Kind)
    ensures Listed(Records(inputs, operations, fireAtMs), kind)
         == Listed(Handled(Notifications(inputs), operations, fireAtMs).log, kind)
  {
    if inputs != [] {
      var front, last := inputs[..|inputs| - 1], inputs[|inputs| - 1];
      ListedByInputs(front, operations, fireAtMs, kind);
      assert Records(inputs, operations, fireAtMs)
          == Records(front, operations, fireAtMs) + [RecordOf(last, operations, fireAtMs)];
      ListedNext(Records(front, operations, fireAtMs), RecordOf(last, operations, fireAtMs), kind);
      if last.Notified? {
        var t := Handled(Notifications(front), operations, fireAtMs);
        HandledNext(Notifications(front), last.notification, operations, fireAtMs);
        CountsNext(t, last.notification, operations, fireAtMs);
        ListedNext(t.log, LoggedBy(last.notification, operations, fireAtMs), kind);
      }
    }
  }

  /** A subscriber's log is one that its tallies agree with. */
  lemma LogProduced(inputs: seq<Input>, operations: nat, fireAtMs: int)
    ensures Produced(LogOf(inputs, operations, fireAtMs), Handled(Notifications(inputs), operations, fireAtMs), operations)
  {
    HandledAgrees(Notifications(inputs), operations, fireAtMs);
    forall kind: Kind
      ensures Listed(Records(inputs, operations, fireAtMs), kind)
           == Listed(Handled(Notifications(inputs), operations, fireAtMs).log, kind)
    {
      ListedByInputs(inputs, operations, fireAtMs, kind);
    }
  }

  /** What the completion record of a subscriber says of its notifications. */
  lemma CompletionTells(inputs: seq<Input>, operations: nat, fireAtMs: int)
    ensures var c, ns := LogOf(inputs, operations, fireAtMs).complete.value, Notifications(inputs);
            var placed := Placed(ns, operations, fireAtMs);
            && c.invalid == CountMisplaced(ns, operations, fireAtMs)
            && c.duplicates == |placed| - |ToSet(placed)|
            && c.broadcast + c.single + c.cancelled == |ToSet(placed)|
            && IsMaxLateness(c.maxLatenessMs, ns, operations, fireAtMs)
  {
    HandledMeans(Notifications(inputs), operations, fireAtMs);
    HandledTotal(Notifications(inputs), operations, fireAtMs);
  }

  lemma {:induction false} HandledTotal(ns: seq<Notification>, operations: nat, fireAtMs: int)
    ensures var t := Handled(ns, operations, fireAtMs); t.broadcast + t.single + t.cancelled == |t.seen|
  {
    if ns != [] {
      HandledTotal(ns[..|ns| - 1], operations, fireAtMs);
    }
  }

  ghost predicate AllValid(inputs: seq<Input>, operations: nat, fireAtMs: int) {
    forall i :: 0 <= i < |inputs| && inputs[i].Notified? ==> Valid(inputs[i].notification, operations, fireAtMs)
  }

  ghost predicate Calm(inputs: seq<Input>) {
    forall i :: 0 <= i < |inputs| ==> inputs[i] != Client(true)
  }

  lemma {:induction false} NoneInvalid(inputs: seq<Input>, operations: nat, fireAtMs: int)
    ensures Handled(Notifications(inputs), operations, fireAtMs).invalid == 0 <==> AllValid(inputs, operations, fireAtMs)
  {
    if inputs != [] {
      var front, last := inputs[..|inputs| - 1], inputs[|inputs| - 1];
      NoneInvalid(front, operations, fireAtMs);
      if last.Notified? {
        HandledNext(Notifications(front), last.notification, operations, fireAtMs);
        CountsNext(Handled(Notifications(front), operations, fireAtMs), last.notification, operations, fireAtMs);
      }
    }
  }

  lemma CalmIff(inputs: seq<Input>, operations: nat, fireAtMs: int)
    ensures Saturated(Records(inputs, operations, fireAtMs)) <==> !Calm(inputs)
  {
    var records := Records(inputs, operations, fireAtMs);
    if !Calm(inputs) {
      var i :| 0 <= i < |inputs| && inputs[i] == Client(true);
      assert records[i] == ClientEvent(true);
    }
    if Saturated(records) {
      var i :| 0 <= i < |records| && records[i] == ClientEvent(true);
      assert inputs[i] == Client(true);
    }
  }

  lemma NobodySaturated(runs: seq<seq<Input>>, operations: nat, fireAtMs: int)
    ensures SaturatedWorkers(Logs(runs, operations, fireAtMs)) == {} <==> forall w :: 0 <= w < |runs| ==> Calm(runs[w])
  {
    var logs := Logs(runs, operations, fireAtMs);
    forall w: nat | w < |runs| ensures w in SaturatedWorkers(logs) <==> !Calm(runs[w]) {
      CalmIff(runs[w], operations, fireAtMs);
    }
    if SaturatedWorkers(logs) == {} {
      forall w | 0 <= w < |runs| ensures Calm(runs[w]) {
        var worker: nat := w;
        assert worker !in SaturatedWorkers(logs);
      }
    }
  }

  lemma LogsDeliverIff(logs: seq<WorkerLog>, tallies: seq<Tally>, fires: nat)
    requires LogsReadable(logs, fires)
    requires |tallies| == |logs| && forall w :: 0 <= w < |logs| ==> Produced(logs[w], tallies[w], fires)
    ensures LogsDeliver(logs, fires) <==>
              && SaturatedWorkers(logs) == {}
              && (forall w :: 0 <= w < |logs| ==> tallies[w].invalid == 0)
              && DeliveredOnce(logs, fires)
  {
    var e := EvidenceFor(logs, fires);
    EvidenceDecides(e, logs, fires);
    DeliveredIff(e, logs, tallies, fires);
  }

  /** Evidence that reports no violation exactly where there is none. */
  ghost function EvidenceFor(logs: seq<WorkerLog>, fires: nat): (e: Evidence)
    requires LogsReadable(logs, fires)
    ensures EvidenceOf(e, logs, fires)
  {
    Evidence(|logs|, fires, Observed(Completions(logs)), Broadcasts(Completions(logs)), SaturatedWorkers(logs),
             Violations(if forall s: nat :: s < fires ==> |BroadcastWorkers(logs, s)| == |logs| then 0 else 1, []),
             Violations(if forall s: nat :: s < fires ==> SingleCount(logs, s) > 0 then 0 else 1, []),
             Violations(if forall s: nat :: s < fires ==> SingleCount(logs, s) <= 1 then 0 else 1, []))
  }

  /**
   * Whatever each subscriber is notified of, in whatever order and with whatever client events in
   * between: the summary accepts exactly when no handler saturated, every notification was valid,
   * every broadcast was recorded once by every subscriber, every single delivery once in all, and
   * nothing cancelled.
   */
  lemma RunDeliveredIff(runs: seq<seq<Input>>, fires: nat, fireAtMs: int)
    ensures LogsDeliver(Logs(runs, fires, fireAtMs), fires) <==>
              && (forall w :: 0 <= w < |runs| ==> Calm(runs[w]))
              && (forall w :: 0 <= w < |runs| ==> AllValid(runs[w], fires, fireAtMs))
              && DeliveredOnce(Logs(runs, fires, fireAtMs), fires)
  {
    var logs, tallies := Logs(runs, fires, fireAtMs), Tallies(runs, fires, fireAtMs);
    forall w | 0 <= w < |runs|
      ensures Produced(logs[w], tallies[w], fires)
      ensures tallies[w].invalid == 0 <==> AllValid(runs[w], fires, fireAtMs)
    {
      LogProduced(runs[w], fires, fireAtMs);
      NoneInvalid(runs[w], fires, fireAtMs);
    }
    NobodySaturated(runs, fires, fireAtMs);
    LogsDeliverIff(logs, tallies, fires);
  }

  function Tallies(runs: seq<seq<Input>>, operations: nat, fireAtMs: int): (r: seq<Tally>)
    ensures |r| == |runs|
    ensures forall w :: 0 <= w < |r| ==> r[w] == Handled(Notifications(runs[w]), operations, fireAtMs)
  {
    seq(|runs|, w requires 0 <= w < |runs| => Handled(Notifications(runs[w]), operations, fireAtMs))
  }
}
