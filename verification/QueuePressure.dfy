/**
 * One worker's queue pressure loop (`bombard` in src/worker.ts) with the broker it talks to and the
 * drain that follows (`runPressureQueueReconciler` in src/workloads/pressure.ts), as a state machine
 * judged by the exactly-once oracle.
 */
module QueuePressure {
  import opened Wrappers
  import opened Sequences
  import opened QueueReconcile

  /** An outcome the client can rely on, one it cannot, or a definite refusal. */
  datatype Reply = Confirmed | Unsure | Refused

  // ---------- the ledger ----------

  function NoteEnqueue(o: QueueOutcome, i: int, reply: Reply): QueueOutcome {
    match reply
    case Confirmed => o.(acknowledged := o.acknowledged + [i])
    case Unsure => o.(ambiguousEnqueues := o.ambiguousEnqueues + [i])
    case Refused => o.(failedEnqueues := o.failedEnqueues + [i])
  }

  function NoteComplete(o: QueueOutcome, s: int, reply: Reply): QueueOutcome {
    match reply
    case Confirmed => o.(completed := o.completed + [s])
    case Unsure => o.(ambiguousCompletions := o.ambiguousCompletions + [s])
    case Refused => o
  }

  function Min(x: nat, y: nat): nat {
    if x < y then x else y
  }

  /** The arrays one worker pushes its outcomes to. */
  class QueueLedger {
    const worker: string
    var acknowledged: seq<int>
    var ambiguousEnqueues: seq<int>
    var failedEnqueues: seq<int>
    var completed: seq<int>
    var ambiguousCompletions: seq<int>

    constructor (worker: string)
      ensures Outcome() == QueueOutcome(worker, [], [], [], [], [])
    {
      this.worker := worker;
      acknowledged, ambiguousEnqueues, failedEnqueues, completed, ambiguousCompletions := [], [], [], [], [];
    }

    function Outcome(): QueueOutcome
      reads this
    {
      QueueOutcome(worker, acknowledged, ambiguousEnqueues, failedEnqueues, completed, ambiguousCompletions)
    }

    /**
     * One queue operation of the loop. The reservation asks for one message and its reply is None
     * when it throws; `thrown` tells whether the operation ends in an error.
     */
    method Operate(i: int, enqueue: Reply, reserved: Option<seq<int>>, complete: Reply) returns (thrown: bool)
      modifies this
      ensures Outcome() == AfterOperation(old(Outcome()), i, enqueue, reserved, complete)
      ensures acknowledged == old(acknowledged) + (if enqueue.Confirmed? then [i] else [])
      ensures ambiguousEnqueues == old(ambiguousEnqueues) + (if enqueue.Unsure? then [i] else [])
      ensures failedEnqueues == old(failedEnqueues) + (if enqueue.Refused? then [i] else [])
      ensures var taken := if enqueue.Confirmed? && reserved.Some? then reserved.value[..Min(1, |reserved.value|)] else [];
              && completed == old(completed) + (if complete.Confirmed? then taken else [])
              && ambiguousCompletions == old(ambiguousCompletions) + (if complete.Unsure? then taken else [])
      ensures thrown <==> !enqueue.Confirmed? || reserved.None? || (reserved.value != [] && !complete.Confirmed?)
    {
      match enqueue {
        case Confirmed =>
          acknowledged := acknowledged + [i];
        case Unsure =>
          ambiguousEnqueues := ambiguousEnqueues + [i];
          return true;
        case Refused =>
          failedEnqueues := failedEnqueues + [i];
          return true;
      }
      if reserved.None? {
        return true;
      }
      if reserved.value != [] {
        var sequence := reserved.value[0];
        match complete {
          case Confirmed =>
            completed := completed + [sequence];
          case Unsure =>
            ambiguousCompletions := ambiguousCompletions + [sequence];
            return true;
          case Refused =>
            return true;
        }
      }
      return false;
    }
  }

  function AfterOperation(o: QueueOutcome, i: int, enqueue: Reply, reserved: Option<seq<int>>, complete: Reply): QueueOutcome {
    var enqueued := NoteEnqueue(o, i, enqueue);
    if enqueue.Confirmed? && reserved.Some? && reserved.value != []
    then NoteComplete(enqueued, reserved.value[0], complete)
    else enqueued
  }

  // ---------- the state machine ----------

  datatype Phase =
    | Enqueueing
    | Reserving
    | Completing(sequence: int)
    | Draining(emptyPolls: nat, batch: seq<int>)
    | Aborted

  /**
   * What the worker and the reconciler know (`counter`, `phase`, `outcome`, `observed`), what the
   * broker holds, and three records no program keeps: the requests of unknown outcome that may
   * still take effect, the messages the broker lost, and those handed out after being taken.
   */
  datatype State = State(
    counter: nat,
    phase: Phase,
    outcome: QueueOutcome,
    observed: seq<int>,
    store: set<int>,
    lateEnqueues: set<int>,
    lateRemovals: set<int>,
    lost: set<int>,
    redelivered: set<int>
  )

  datatype Event =
    | Enqueue(reply: Reply)
    | Reserve(reserved: Option<int>)
    | Complete(reply: Reply)
    | Stop
    | Land(sequence: int)
    | Remove(sequence: int)
    | Poll(items: seq<int>)
    | Take
    | Interrupt
    | Vanish(sequence: int)
    | Reappear(sequence: int)
    | Surface(sequence: int)

  function Start(worker: string): State {
    State(0, Enqueueing, QueueOutcome(worker, [], [], [], [], []), [], {}, {}, {}, {}, {})
  }

  function Taken(s: State): set<int> {
    ToSet(s.outcome.completed) + ToSet(s.observed)
  }

  /** A broker that keeps what it acknowledged, and hands out only what it keeps. */
  predicate Honest(e: Event) {
    !e.Vanish? && !e.Reappear? && !e.Surface?
  }

  predicate Enabled(s: State, e: Event) {
    match e
    case Enqueue(reply) => s.phase.Enqueueing? && s.counter <= MAX_SAFE_INTEGER
    case Reserve(reserved) => s.phase.Reserving? && (reserved.Some? ==> reserved.value in s.store)
    case Complete(reply) => s.phase.Completing? && (reply.Confirmed? ==> s.phase.sequence in s.store)
    case Stop => s.phase.Enqueueing?
    case Land(x) => x in s.lateEnqueues
    case Remove(x) => x in s.lateRemovals && x in s.store
    case Poll(items) =>
      && s.phase.Draining? && s.phase.emptyPolls < 3 && s.phase.batch == []
      && forall i :: 0 <= i < |items| ==> items[i] in s.store
    case Take => s.phase.Draining? && s.phase.batch != [] && s.phase.batch[0] in s.store
    case Interrupt => s.phase.Draining? && s.phase.emptyPolls < 3
    case Vanish(x) => x in s.store
    case Reappear(x) => x in s.lost || x in Taken(s)
    case Surface(x) => x in s.outcome.failedEnqueues
  }

  function NextCounter(s: State): State {
    s.(phase := Enqueueing, counter := s.counter + 1)
  }

  function AfterEnqueue(s: State, reply: Reply): State {
    var noted := s.(outcome := NoteEnqueue(s.outcome, s.counter, reply));
    match reply
    case Confirmed => noted.(phase := Reserving, store := s.store + {s.counter})
    case Unsure => NextCounter(noted.(lateEnqueues := s.lateEnqueues + {s.counter}))
    case Refused => NextCounter(noted)
  }

  /** A message is taken when the client knows that it is gone for good. */
  function TakeMessage(s: State, x: int): State {
    s.(store := s.store - {x}, redelivered := if x in Taken(s) then s.redelivered + {x} else s.redelivered)
  }

  function AfterComplete(s: State, reply: Reply): State
    requires s.phase.Completing?
  {
    var x := s.phase.sequence;
    var next := NextCounter(s.(outcome := NoteComplete(s.outcome, x, reply)));
    match reply
    case Confirmed => next.(store := TakeMessage(s, x).store, redelivered := TakeMessage(s, x).redelivered)
    case Unsure => next.(lateRemovals := s.lateRemovals + {x})
    case Refused => next
  }

  /** The reconciler records a message before completing it, and gives up on one it has seen. */
  function AfterTake(s: State): State
    requires s.phase.Draining? && s.phase.batch != []
  {
    var x := s.phase.batch[0];
    if x in s.observed then s.(phase := Aborted)
    else TakeMessage(s, x).(observed := s.observed + [x], phase := s.phase.(batch := s.phase.batch[1..]))
  }

  function Next(s: State, e: Event): State
    requires Enabled(s, e)
  {
    match e
    case Enqueue(reply) => AfterEnqueue(s, reply)
    case Reserve(reserved) => if reserved.Some? then s.(phase := Completing(reserved.value)) else NextCounter(s)
    case Complete(reply) => AfterComplete(s, reply)
    case Stop => s.(phase := Draining(0, []))
    case Land(x) => s.(store := s.store + {x}, lateEnqueues := s.lateEnqueues - {x})
    case Remove(x) => s.(store := s.store - {x}, lateRemovals := s.lateRemovals - {x})
    case Poll(items) =>
      s.(phase := if items == [] then Draining(s.phase.emptyPolls + 1, []) else Draining(0, items))
    case Take => AfterTake(s)
    case Interrupt => s.(phase := Aborted)
    case Vanish(x) => s.(store := s.store - {x}, lost := s.lost + {x})
    case Reappear(x) => s.(store := s.store + {x}, lost := s.lost - {x})
    case Surface(x) => s.(store := s.store + {x})
  }

  /** The state after a sequence of events, when every one of them can happen. */
  function Run(worker: string, events: seq<Event>): Option<State> {
    if events == [] then Some(Start(worker))
    else
      var before, e := Run(worker, events[..|events| - 1]), events[|events| - 1];
      if before.Some? && Enabled(before.value, e) then Some(Next(before.value, e)) else None
  }

  // ---------- what every step keeps ----------

  function Visible(s: State): set<int> {
    Taken(s) + ToSet(s.outcome.ambiguousCompletions)
  }

  function Enqueued(o: QueueOutcome): set<int> {
    ToSet(o.acknowledged) + ToSet(o.ambiguousEnqueues) + ToSet(o.failedEnqueues)
  }

  /** The first counter no enqueue has used yet. */
  function Unused(s: State): nat {
    if s.phase.Reserving? || s.phase.Completing? then s.counter + 1 else s.counter
  }

  /** Each counter has one enqueue outcome. */
  ghost predicate EnqueuesInv(s: State) {
    && Distinct(s.outcome.acknowledged) && Distinct(s.outcome.ambiguousEnqueues) && Distinct(s.outcome.failedEnqueues)
    && OutcomesDisjoint(s.outcome)
    && (forall x :: x in Enqueued(s.outcome) ==> 0 <= x < Unused(s))
    && Unused(s) <= MAX_SAFE_INTEGER + 1
  }

  /** Only enqueued messages are ever kept, lost, handed out or taken. */
  ghost predicate OriginsInv(s: State) {
    && s.store + s.lost + Visible(s) <= Enqueued(s.outcome)
    && s.lateEnqueues <= ToSet(s.outcome.ambiguousEnqueues)
    && s.lateRemovals <= ToSet(s.outcome.ambiguousCompletions)
    && (s.phase.Completing? ==> s.phase.sequence in Enqueued(s.outcome))
  }

  /** An acknowledged message is somewhere, unless a completion of it stayed ambiguous. */
  ghost predicate AcknowledgedInv(s: State) {
    ToSet(s.outcome.acknowledged) <= s.store + s.lost + Visible(s)
  }

  ghost predicate TakenOnce(s: State) {
    Distinct(s.outcome.completed) && ToSet(s.outcome.completed) !! ToSet(s.observed)
  }

  ghost predicate TakesInv(s: State) {
    && Distinct(s.observed)
    && (s.redelivered == {} <==> TakenOnce(s))
    && (s.phase.Enqueueing? || s.phase.Reserving? || s.phase.Completing? ==> s.observed == [])
  }

  ghost predicate Inv(s: State) {
    EnqueuesInv(s) && OriginsInv(s) && AcknowledgedInv(s) && TakesInv(s)
  }

  lemma EnqueueKeepsLists(s: State, reply: Reply)
    requires Enabled(s, Enqueue(reply)) && EnqueuesInv(s)
    ensures EnqueuesInv(AfterEnqueue(s, reply))
  {
    assert s.counter !in Enqueued(s.outcome);
    ToSetAppend(s.outcome.acknowledged, s.counter);
    ToSetAppend(s.outcome.ambiguousEnqueues, s.counter);
    ToSetAppend(s.outcome.failedEnqueues, s.counter);
  }

  lemma EnqueueKeeps(s: State, reply: Reply)
    requires Enabled(s, Enqueue(reply)) && Inv(s)
    ensures Inv(AfterEnqueue(s, reply))
  {
    EnqueueKeepsLists(s, reply);
  }

  lemma CompleteKeeps(s: State, reply: Reply)
    requires Enabled(s, Complete(reply)) && Inv(s)
    ensures Inv(AfterComplete(s, reply))
  {
    var x := s.phase.sequence;
    ToSetAppend(s.outcome.completed, x);
    ToSetAppend(s.outcome.ambiguousCompletions, x);
  }

  lemma TakeKeeps(s: State)
    requires Enabled(s, Take) && Inv(s)
    ensures Inv(AfterTake(s))
  {
    ToSetAppend(s.observed, s.phase.batch[0]);
  }

  lemma {:induction false} StepKeeps(s: State, e: Event)
    requires Inv(s) && Enabled(s, e)
    ensures Inv(Next(s, e))
  {
    match e
    case Enqueue(reply) => EnqueueKeeps(s, reply);
    case Complete(reply) => CompleteKeeps(s, reply);
    case Take => TakeKeeps(s);
    case _ =>
  }

  lemma {:induction false} RunKeeps(worker: string, events: seq<Event>)
    requires Run(worker, events).Some?
    ensures Inv(Run(worker, events).value)
  {
    if events != [] {
      RunKeeps(worker, events[..|events| - 1]);
      StepKeeps(Run(worker, events[..|events| - 1]).value, events[|events| - 1]);
    }
  }

  // ---------- what the ledgers list ----------

  /** How many operations have begun: each begins with one enqueue. */
  function Enqueues(events: seq<Event>): nat {
    if events == [] then 0
    else Enqueues(events[..|events| - 1]) + if events[|events| - 1].Enqueue? then 1 else 0
  }

  /** The operations whose enqueue was answered so. */
  function EnqueuedWith(events: seq<Event>, reply: Reply): seq<int> {
    if events == [] then []
    else
      var front, last := events[..|events| - 1], events[|events| - 1];
      if last == Enqueue(reply) then EnqueuedWith(front, reply) + [Enqueues(front)] else EnqueuedWith(front, reply)
  }

  /** The message that was reserved last. */
  function LastReserved(events: seq<Event>): Option<int> {
    if events == [] then None
    else
      var front, last := events[..|events| - 1], events[|events| - 1];
      if last.Reserve? then last.reserved else LastReserved(front)
  }

  /** The reserved messages whose completion was answered so. */
  function CompletedWith(events: seq<Event>, reply: Reply): seq<int> {
    if events == [] then []
    else
      var front, last := events[..|events| - 1], events[|events| - 1];
      if last == Complete(reply) && LastReserved(front).Some?
      then CompletedWith(front, reply) + [LastReserved(front).value]
      else CompletedWith(front, reply)
  }

  ghost predicate LedgersInv(s: State, worker: string, events: seq<Event>) {
    && s.outcome == QueueOutcome(worker,
         EnqueuedWith(events, Confirmed), EnqueuedWith(events, Unsure), EnqueuedWith(events, Refused),
         CompletedWith(events, Confirmed), CompletedWith(events, Unsure))
    && (s.phase.Enqueueing? ==> s.counter == Enqueues(events))
    && (s.phase.Reserving? || s.phase.Completing? ==> s.counter + 1 == Enqueues(events))
    && (s.phase.Completing? ==> LastReserved(events) == Some(s.phase.sequence))
  }

  lemma ListsNext(events: seq<Event>, e: Event)
    ensures Enqueues(events + [e]) == Enqueues(events) + (if e.Enqueue? then 1 else 0)
    ensures LastReserved(events + [e]) == if e.Reserve? then e.reserved else LastReserved(events)
    ensures forall reply :: EnqueuedWith(events + [e], reply)
                         == EnqueuedWith(events, reply) + (if e == Enqueue(reply) then [Enqueues(events)] else [])
    ensures forall reply :: CompletedWith(events + [e], reply)
                         == CompletedWith(events, reply)
                            + (if e == Complete(reply) && LastReserved(events).Some? then [LastReserved(events).value] else [])
  {
    assert (events + [e])[..|events|] == events;
  }

  lemma EnqueueListed(s: State, worker: string, events: seq<Event>, reply: Reply)
    requires Enabled(s, Enqueue(reply)) && LedgersInv(s, worker, events)
    ensures LedgersInv(AfterEnqueue(s, reply), worker, events + [Enqueue(reply)])
  {
    ListsNext(events, Enqueue(reply));
  }

  lemma CompleteListed(s: State, worker: string, events: seq<Event>, reply: Reply)
    requires Enabled(s, Complete(reply)) && LedgersInv(s, worker, events)
    ensures LedgersInv(AfterComplete(s, reply), worker, events + [Complete(reply)])
  {
    ListsNext(events, Complete(reply));
  }

  lemma LedgersNext(s: State, worker: string, events: seq<Event>, e: Event)
    requires Enabled(s, e) && LedgersInv(s, worker, events)
    ensures LedgersInv(Next(s, e), worker, events + [e])
  {
    match e
    case Enqueue(reply) => EnqueueListed(s, worker, events, reply);
    case Complete(reply) => CompleteListed(s, worker, events, reply);
    case _ => ListsNext(events, e);
  }

  /**
   * Over every run, with any broker fault, each list of the record holds exactly the operations, or the
   * reserved messages, whose request got that answer, in order. A refused completion is in no list.
   */
  lemma {:induction false} LedgersList(worker: string, events: seq<Event>)
    requires Run(worker, events).Some?
    ensures Run(worker, events).value.outcome == QueueOutcome(worker,
              EnqueuedWith(events, Confirmed), EnqueuedWith(events, Unsure), EnqueuedWith(events, Refused),
              CompletedWith(events, Confirmed), CompletedWith(events, Unsure))
    ensures LedgersInv(Run(worker, events).value, worker, events)
  {
    if events != [] {
      var front, last := events[..|events| - 1], events[|events| - 1];
      LedgersList(worker, front);
      LedgersNext(Run(worker, front).value, worker, front, last);
      assert events == front + [last];
    }
  }

  /** The messages of all polls. */
  function PolledItems(events: seq<Event>): seq<int> {
    if events == [] then []
    else
      var front, last := events[..|events| - 1], events[|events| - 1];
      if last.Poll? then PolledItems(front) + last.items else PolledItems(front)
  }

  /** How many polls in a row came back empty at the end. */
  function EmptyTrail(events: seq<Event>): nat {
    if events == [] then 0
    else
      var front, last := events[..|events| - 1], events[|events| - 1];
      if last.Poll? then (if last.items == [] then EmptyTrail(front) + 1 else 0) else EmptyTrail(front)
  }

  ghost predicate DrainInv(s: State, events: seq<Event>) {
    if s.phase.Draining? then s.observed + s.phase.batch == PolledItems(events) && s.phase.emptyPolls == EmptyTrail(events)
    else s.phase.Aborted? || (s.observed == PolledItems(events) == [] && EmptyTrail(events) == 0)
  }

  lemma DrainNext(s: State, events: seq<Event>, e: Event)
    requires Enabled(s, e) && DrainInv(s, events)
    ensures DrainInv(Next(s, e), events + [e])
  {
    assert (events + [e])[..|events|] == events;
    if e.Take? {
      assert s.observed + s.phase.batch == s.observed + [s.phase.batch[0]] + s.phase.batch[1..];
    }
  }

  /** A drain that goes on has recorded what was polled, but for the rest of the last batch; one that ended, all of it. */
  lemma {:induction false} DrainRecords(worker: string, events: seq<Event>)
    requires Run(worker, events).Some?
    ensures DrainInv(Run(worker, events).value, events)
    ensures Finished(Run(worker, events).value) ==>
              Run(worker, events).value.observed == PolledItems(events) && EmptyTrail(events) == 3
  {
    if events != [] {
      var front, last := events[..|events| - 1], events[|events| - 1];
      DrainRecords(worker, front);
      DrainNext(Run(worker, front).value, front, last);
      assert events == front + [last];
    }
  }

  // ---------- an operation of the loop is a stretch of the run ----------

  lemma RunStep(worker: string, events: seq<Event>, e: Event)
    ensures Run(worker, events + [e])
         == (if Run(worker, events).Some? && Enabled(Run(worker, events).value, e)
             then Some(Next(Run(worker, events).value, e)) else None)
  {
    assert (events + [e])[..|events|] == events;
  }

  /** What a stretch of events makes of a state, when every one of them can happen. */
  function Perform(s: State, steps: seq<Event>): Option<State>
    decreases |steps|
  {
    if steps == [] then Some(s)
    else if Enabled(s, steps[0]) then Perform(Next(s, steps[0]), steps[1..])
    else None
  }

  lemma {:induction false} RunPerform(worker: string, events: seq<Event>, steps: seq<Event>)
    ensures Run(worker, events + steps)
         == (if Run(worker, events).Some? then Perform(Run(worker, events).value, steps) else None)
    decreases |steps|
  {
    if steps == [] {
      assert events + steps == events;
    } else {
      RunStep(worker, events, steps[0]);
      RunPerform(worker, events + [steps[0]], steps[1..]);
      assert events + [steps[0]] + steps[1..] == events + steps;
    }
  }

  lemma RunOn(worker: string, events: seq<Event>, e: Event) returns (longer: seq<Event>)
    requires Run(worker, events).Some? && Enabled(Run(worker, events).value, e)
    ensures longer == events + [e] && Run(worker, longer) == Some(Next(Run(worker, events).value, e))
  {
    longer := events + [e];
    RunStep(worker, events, e);
  }

  /** The steps of one operation when nothing else happens in between. */
  function OperationEvents(enqueue: Reply, reserved: Option<seq<int>>, complete: Reply): seq<Event> {
    if !enqueue.Confirmed? then [Enqueue(enqueue)]
    else if reserved.None? || reserved.value == [] then [Enqueue(enqueue), Reserve(None)]
    else [Enqueue(enqueue), Reserve(Some(reserved.value[0])), Complete(complete)]
  }

  /** The operation of the loop and the steps of the state machine leave the same record behind. */
  lemma OperationIsRun(s: State, enqueue: Reply, reserved: Option<seq<int>>, complete: Reply)
    requires s.phase.Enqueueing? && Perform(s, OperationEvents(enqueue, reserved, complete)).Some?
    ensures var t := Perform(s, OperationEvents(enqueue, reserved, complete)).value;
            && t.outcome == AfterOperation(s.outcome, s.counter, enqueue, reserved, complete)
            && t.counter == s.counter + 1
            && t.phase.Enqueueing?
  {
    var steps := OperationEvents(enqueue, reserved, complete);
    var s1 := Next(s, Enqueue(enqueue));
    if !enqueue.Confirmed? {
      assert Perform(s, steps) == Perform(s1, steps[1..]);
    } else {
      var s2 := Next(s1, steps[1]);
      assert Perform(s, steps) == Perform(s1, steps[1..]) == Perform(s2, steps[1..][1..]);
      if s2.phase.Completing? {
        assert steps[1..][1..] == [Complete(complete)];
        assert Perform(s2, [Complete(complete)]) == Perform(Next(s2, Complete(complete)), [Complete(complete)][1..]);
      }
    }
  }

  // ---------- what the oracle says of a run ----------

  predicate Finished(s: State) {
    s.phase == Draining(3, [])
  }

  /** The drain came to its end and the oracle takes the worker's record with what was drained. */
  ghost predicate Accepted(s: State) {
    Finished(s) && WorkerReconciled(s.outcome, Sort(s.observed))
  }

  /** Acknowledged messages nobody took: the broker still has them or lost them. */
  function Missing(s: State): set<int> {
    ToSet(s.outcome.acknowledged) * (s.store + s.lost) - Taken(s)
  }

  lemma {:induction false} SortedObserved(s: State)
    ensures ToSet(Sort(s.observed)) == ToSet(s.observed)
    ensures Distinct(Sort(s.observed)) <==> Distinct(s.observed)
  {
    SameElements(Sort(s.observed), s.observed);
  }

  lemma ListedWithin(values: seq<int>, all: set<int>)
    requires ToSet(values) <= all && forall x :: x in all ==> IsSequence(x)
    ensures Listed(values) <==> Distinct(values)
  {
    forall i | 0 <= i < |values| ensures IsSequence(values[i]) {
      assert values[i] in ToSet(values);
    }
  }

  /** The exact condition for a run to be accepted, whatever the broker does. */
  lemma AcceptedIff(worker: string, events: seq<Event>)
    requires Run(worker, events).Some? && Finished(Run(worker, events).value)
    ensures var s := Run(worker, events).value;
            Accepted(s) <==>
              && Distinct(s.outcome.ambiguousCompletions)
              && s.redelivered == {}
              && Visible(s) !! ToSet(s.outcome.failedEnqueues)
              && Missing(s) <= ToSet(s.outcome.ambiguousCompletions)
  {
    var s := Run(worker, events).value;
    RunKeeps(worker, events);
    SortedObserved(s);
    AllListed(s);
    ExactlyOnceIff(s);
  }

  lemma {:induction false} AllListed(s: State)
    requires Inv(s)
    ensures OutcomesListed(s.outcome) <==> Distinct(s.outcome.completed) && Distinct(s.outcome.ambiguousCompletions)
    ensures Listed(Sort(s.observed))
  {
    SortedObserved(s);
    var all := Enqueued(s.outcome);
    ListedWithin(s.outcome.acknowledged, all);
    ListedWithin(s.outcome.ambiguousEnqueues, all);
    ListedWithin(s.outcome.failedEnqueues, all);
    ListedWithin(s.outcome.completed, all);
    ListedWithin(s.outcome.ambiguousCompletions, all);
    ListedWithin(Sort(s.observed), all);
  }

  lemma {:induction false} ExactlyOnceIff(s: State)
    requires Inv(s)
    ensures ExactlyOnce(s.outcome, Sort(s.observed)) <==>
              && ToSet(s.outcome.completed) !! ToSet(s.observed)
              && Visible(s) !! ToSet(s.outcome.failedEnqueues)
              && Missing(s) <= ToSet(s.outcome.ambiguousCompletions)
  {
    SortedObserved(s);
  }

  /** What a broker that loses a message, or hands one out again, does to the verdict. */
  lemma FaultsRejected(worker: string, events: seq<Event>, x: int)
    requires Run(worker, events).Some?
    ensures var s := Run(worker, events).value;
            && (x in s.outcome.acknowledged && x in s.lost && x !in Visible(s) ==> !Accepted(s))
            && (x in s.redelivered ==> !Accepted(s))
            && (x in s.outcome.failedEnqueues && x in Visible(s) ==> !Accepted(s))
  {
    if Finished(Run(worker, events).value) {
      AcceptedIff(worker, events);
    }
  }

  // ---------- honest brokers ----------

  /** With an honest broker a message leaves for good, so nothing comes out twice and nothing is lost. */
  ghost predicate HonestInv(s: State) {
    && s.lost == {} && s.redelivered == {}
    && s.store !! Taken(s)
    && s.lateEnqueues !! s.store + Taken(s)
    && s.store + Visible(s) !! ToSet(s.outcome.failedEnqueues)
    && (s.phase.Completing? ==> s.phase.sequence !in s.outcome.failedEnqueues)
  }

  lemma HonestEnqueue(s: State, reply: Reply)
    requires Enabled(s, Enqueue(reply)) && Inv(s) && HonestInv(s)
    ensures HonestInv(AfterEnqueue(s, reply))
  {
    assert s.counter !in Enqueued(s.outcome);
  }

  lemma HonestComplete(s: State, reply: Reply)
    requires Enabled(s, Complete(reply)) && Inv(s) && HonestInv(s)
    ensures HonestInv(AfterComplete(s, reply))
  {
    ToSetAppend(s.outcome.completed, s.phase.sequence);
    ToSetAppend(s.outcome.ambiguousCompletions, s.phase.sequence);
  }

  lemma {:induction false} HonestTake(s: State)
    requires Enabled(s, Take) && Inv(s) && HonestInv(s)
    ensures HonestInv(AfterTake(s)) && !AfterTake(s).phase.Aborted?
  {
    ToSetAppend(s.observed, s.phase.batch[0]);
  }

  lemma {:induction false} HonestStep(s: State, e: Event)
    requires Inv(s) && Enabled(s, e) && Honest(e) && HonestInv(s)
    ensures HonestInv(Next(s, e))
  {
    match e
    case Enqueue(reply) => HonestEnqueue(s, reply);
    case Complete(reply) => HonestComplete(s, reply);
    case Take => HonestTake(s);
    case _ =>
  }

  lemma {:induction false} HonestRun(worker: string, events: seq<Event>)
    requires Run(worker, events).Some? && forall i :: 0 <= i < |events| ==> Honest(events[i])
    ensures HonestInv(Run(worker, events).value)
  {
    if events != [] {
      var front := events[..|events| - 1];
      HonestRun(worker, front);
      RunKeeps(worker, front);
      HonestStep(Run(worker, front).value, events[|events| - 1]);
    }
  }

  /**
   * With an honest broker, a full drain is accepted exactly when no message had two ambiguous
   * completions: the oracle then mistakes the client's own doubt for a fault of the broker.
   */
  lemma {:induction false} HonestRunAccepted(worker: string, events: seq<Event>)
    requires Run(worker, events).Some? && forall i :: 0 <= i < |events| ==> Honest(events[i])
    requires Finished(Run(worker, events).value) && Run(worker, events).value.store == {}
    ensures Accepted(Run(worker, events).value) <==> Distinct(Run(worker, events).value.outcome.ambiguousCompletions)
  {
    HonestRun(worker, events);
    AcceptedIff(worker, events);
  }

  /** With an honest broker the reconciler never sees a message twice: only a failed request stops it. */
  lemma {:induction false} HonestDrainSeesNoDuplicate(worker: string, events: seq<Event>)
    requires Run(worker, events).Some? && forall i :: 0 <= i < |events| ==> Honest(events[i])
    requires Enabled(Run(worker, events).value, Take)
    ensures Next(Run(worker, events).value, Take).phase.Draining?
  {
    HonestRun(worker, events);
    RunKeeps(worker, events);
    HonestTake(Run(worker, events).value);
  }

  ghost predicate AllHonest(events: seq<Event>) {
    forall i :: 0 <= i < |events| ==> Honest(events[i])
  }

  /** The client enqueues a message, reserves message 0, and cannot tell whether its completion arrived. */
  lemma {:induction false} DoubtedRound(events: seq<Event>, s: State) returns (longer: seq<Event>)
    requires AllHonest(events) && Run("w", events) == Some(s)
    requires s.phase.Enqueueing? && s.counter <= 1 && (s.counter == 0 || 0 in s.store)
    ensures AllHonest(longer)
    ensures Run("w", longer)
         == Some(s.(counter := s.counter + 1,
                    outcome := NoteComplete(NoteEnqueue(s.outcome, s.counter, Confirmed), 0, Unsure),
                    store := s.store + {s.counter},
                    lateRemovals := s.lateRemovals + {0}))
  {
    var s1, s2 := DoubtedStates(s);
    longer := RunOn("w", events, Enqueue(Confirmed));
    longer := RunOn("w", longer, Reserve(Some(0)));
    longer := RunOn("w", longer, Complete(Unsure));
  }

  /** The states in between. */
  lemma DoubtedStates(s: State) returns (s1: State, s2: State)
    requires s.phase.Enqueueing? && s.counter <= 1 && (s.counter == 0 || 0 in s.store)
    ensures Enabled(s, Enqueue(Confirmed)) && s1 == Next(s, Enqueue(Confirmed))
    ensures Enabled(s1, Reserve(Some(0))) && s2 == Next(s1, Reserve(Some(0)))
    ensures Enabled(s2, Complete(Unsure))
    ensures Next(s2, Complete(Unsure))
         == s.(counter := s.counter + 1,
               outcome := NoteComplete(NoteEnqueue(s.outcome, s.counter, Confirmed), 0, Unsure),
               store := s.store + {s.counter},
               lateRemovals := s.lateRemovals + {0})
  {
    s1 := Next(s, Enqueue(Confirmed));
    assert 0 in s1.store;
    s2 := Next(s1, Reserve(Some(0)));
  }

  lemma {:induction false} DoubtedOnce() returns (events: seq<Event>)
    ensures AllHonest(events)
    ensures Run("w", events) == Some(State(1, Enqueueing, QueueOutcome("w", [0], [], [], [], [0]), [], {0}, {}, {0}, {}, {}))
  {
    events := DoubtedRound([], Start("w"));
    var s := Run("w", events).value;
    assert s.store == {0} && s.lateRemovals == {0};
    assert s.outcome == QueueOutcome("w", [0], [], [], [], [0]);
  }

  /** The message comes back, and once more its completion stays in doubt. */
  lemma {:induction false} DoubtedAgain() returns (events: seq<Event>)
    ensures AllHonest(events)
    ensures Run("w", events)
         == Some(State(2, Enqueueing, QueueOutcome("w", [0, 1], [], [], [], [0, 0]), [], {1}, {}, {}, {}, {}))
  {
    events := DoubtedOnce();
    events := DoubtedRound(events, Run("w", events).value);
    var s := Run("w", events).value;
    assert s.store == {0, 1} && s.lateRemovals == {0};
    assert s.outcome == QueueOutcome("w", [0, 1], [], [], [], [0, 0]);
    events := RunOn("w", events, Remove(0));
    assert {0, 1} - {0} == {1} && {0} - {0} == {};
  }

  lemma {:induction false} DoubtedDrained() returns (events: seq<Event>)
    ensures forall i :: 0 <= i < |events| ==> Honest(events[i])
    ensures Run("w", events).Some?
    ensures var s := Run("w", events).value;
            s.phase == Draining(0, []) && s.store == {} && s.outcome.ambiguousCompletions == [0, 0]
  {
    events := DoubtedAgain();
    events := RunOn("w", events, Stop);
    events := RunOn("w", events, Poll([1]));
    events := RunOn("w", events, Take);
  }

  /** An honest run, fully drained, that the oracle rejects: one message, two ambiguous completions. */
  lemma {:induction false} DoubtedTwice() returns (events: seq<Event>)
    ensures forall i :: 0 <= i < |events| ==> Honest(events[i])
    ensures var r := Run("w", events);
            r.Some? && Finished(r.value) && r.value.store == {} && !Accepted(r.value)
  {
    events := DoubtedDrained();
    events := RunOn("w", events, Poll([]));
    events := RunOn("w", events, Poll([]));
    events := RunOn("w", events, Poll([]));
    HonestRunAccepted("w", events);
    assert Run("w", events).value.outcome.ambiguousCompletions[0] == Run("w", events).value.outcome.ambiguousCompletions[1];
  }

  // ---------- the drain loop ----------

  datatype DrainResult = Drained(sequences: seq<int>) | SeenTwice(sequence: int) | Waiting

  predicate ThreeEmpty(replies: seq<seq<int>>, n: nat) {
    3 <= n <= |replies| && replies[n - 3] == [] && replies[n - 2] == [] && replies[n - 1] == []
  }

  /** The first `n` replies bring no message twice, and do not end the drain before the last of them. */
  ghost predicate DrainedSoFar(replies: seq<seq<int>>, n: nat) {
    && n <= |replies|
    && Distinct(Flatten(replies[..n]))
    && forall m :: 0 <= m < n ==> !ThreeEmpty(replies, m)
  }

  /** How many replies in a row were empty at the end of the first `n`. */
  function EmptyPolls(replies: seq<seq<int>>, n: nat): (k: nat)
    requires n <= |replies|
    ensures k <= n
  {
    if n == 0 || replies[n - 1] != [] then 0 else EmptyPolls(replies, n - 1) + 1
  }

  lemma ThreeEmptyIff(replies: seq<seq<int>>, n: nat)
    requires n <= |replies|
    ensures EmptyPolls(replies, n) >= 3 <==> ThreeEmpty(replies, n)
  {
    if n >= 3 {
      assert EmptyPolls(replies, n - 2) >= 1 <==> replies[n - 3] == [];
      assert EmptyPolls(replies, n - 1) >= 2 <==> replies[n - 2] == [] && EmptyPolls(replies, n - 2) >= 1;
    }
  }

  /** One more reply that does not repeat anything, after replies that did not end the drain. */
  lemma DrainGoesOn(replies: seq<seq<int>>, n: nat)
    requires 0 < n <= |replies| && DrainedSoFar(replies, n - 1) && !ThreeEmpty(replies, n - 1)
    ensures Flatten(replies[..n]) == Flatten(replies[..n - 1]) + replies[n - 1]
    ensures replies[n - 1] == [] ==> Flatten(replies[..n]) == Flatten(replies[..n - 1])
    ensures Distinct(Flatten(replies[..n])) ==> DrainedSoFar(replies, n)
  {
    FlattenNext(replies, n);
  }

  /** Records a batch, up to the first message that was seen before. */
  method RecordBatch(recorded: seq<int>, known: set<int>, items: seq<int>)
    returns (sequences: seq<int>, seen: set<int>, duplicate: Option<int>)
    requires known == ToSet(recorded) && Distinct(recorded)
    ensures duplicate.None? <==> Distinct(recorded + items)
    ensures duplicate.None? ==> sequences == recorded + items && seen == ToSet(sequences)
    ensures duplicate.Some? ==> duplicate.value in items
  {
    sequences, seen := recorded, known;
    for i := 0 to |items|
      invariant sequences == recorded + items[..i] && seen == ToSet(sequences) && Distinct(sequences)
    {
      var sequence := items[i];
      ToSetAppend(sequences, sequence);
      assert sequences + [sequence] == recorded + items[..i + 1];
      if sequence in seen {
        DistinctPrefix(recorded + items, sequences + [sequence]);
        return sequences, seen, Some(sequence);
      }
      seen := seen + {sequence};
      sequences := sequences + [sequence];
    }
    assert items[..|items|] == items;
    return sequences, seen, None;
  }

  /**
   * Reserves until three polls in a row came back empty. `replies` are the broker's answers in order
   * and `used` is how many of them were asked for; Waiting means that the drain would ask for more.
   */
  method DrainRoute(replies: seq<seq<int>>) returns (result: DrainResult, used: nat)
    ensures result.Drained? ==>
              && DrainedSoFar(replies, used) && ThreeEmpty(replies, used)
              && result.sequences == Sort(Flatten(replies[..used]))
    ensures result.SeenTwice? ==>
              && 0 < used <= |replies| && DrainedSoFar(replies, used - 1) && !ThreeEmpty(replies, used - 1)
              && result.sequence in replies[used - 1] && !Distinct(Flatten(replies[..used]))
    ensures result.Waiting? ==>
              used == |replies| && DrainedSoFar(replies, used) && !ThreeEmpty(replies, used)
  {
    var sequences: seq<int> := [];
    var seen: set<int> := {};
    var emptyPolls := 0;
    used := 0;
    while emptyPolls < 3
      invariant DrainedSoFar(replies, used) && sequences == Flatten(replies[..used]) && seen == ToSet(sequences)
      invariant emptyPolls == EmptyPolls(replies, used) && (ThreeEmpty(replies, used) <==> emptyPolls >= 3)
      decreases |replies| - used
    {
      if used == |replies| {
        return Waiting, used;
      }
      var items := replies[used];
      used := used + 1;
      DrainGoesOn(replies, used);
      ThreeEmptyIff(replies, used);
      if items == [] {
        emptyPolls := emptyPolls + 1;
        continue;
      }
      emptyPolls := 0;
      var duplicate;
      sequences, seen, duplicate := RecordBatch(sequences, seen, items);
      if duplicate.Some? {
        return SeenTwice(duplicate.value), used;
      }
    }
    return Drained(Sort(sequences)), used;
  }

  lemma {:induction false} DistinctPrefix<T>(whole: seq<T>, part: seq<T>)
    requires part <= whole && !Distinct(part)
    ensures !Distinct(whole)
  {
    var i, j :| 0 <= i < j < |part| && part[i] == part[j];
    assert whole[i] == whole[j];
  }

  // ---------- polls of the state machine ----------

  function Takes(n: nat): (r: seq<Event>)
    ensures |r| == n && forall i :: 0 <= i < n ==> r[i] == Take
  {
    seq(n, i => Take)
  }

  lemma {:induction false} MessageTaken(s: State)
    requires Enabled(s, Take) && s.store !! Taken(s)
    ensures var x, t := s.phase.batch[0], AfterTake(s);
            && t.observed == s.observed + [x]
            && t.store == s.store - {x}
            && t.phase == Draining(s.phase.emptyPolls, s.phase.batch[1..])
            && t.store !! Taken(t)
  {
    ToSetAppend(s.observed, s.phase.batch[0]);
  }

  /** An honest broker's batch is recorded whole, in order, and leaves the broker. */
  lemma {:induction false} BatchTaken(s: State, batch: seq<int>)
    requires s.phase.Draining? && s.phase.batch == batch && ToSet(batch) <= s.store && Distinct(batch)
    requires s.store !! Taken(s)
    ensures var t := Perform(s, Takes(|batch|));
            && t.Some?
            && t.value.observed == s.observed + batch
            && t.value.store == s.store - ToSet(batch)
            && t.value.phase == Draining(s.phase.emptyPolls, [])
    decreases |batch|
  {
    if batch != [] {
      var x, rest := batch[0], batch[1..];
      MessageTaken(s);
      DistinctTail(batch);
      BatchTaken(AfterTake(s), rest);
      assert Takes(|batch|)[1..] == Takes(|rest|);
      assert s.observed + [x] + rest == s.observed + batch;
    }
  }

  lemma {:induction false} DistinctTail<T>(s: seq<T>)
    requires s != [] && Distinct(s)
    ensures Distinct(s[1..]) && s[0] !in s[1..] && ToSet(s) == {s[0]} + ToSet(s[1..])
  {
    assert s == [s[0]] + s[1..];
    forall i | 0 <= i < |s[1..]| ensures s[1..][i] != s[0] {
      assert s[1..][i] == s[i + 1];
    }
  }

  // ---------- all workers together ----------

  ghost predicate WorkersDistinct(states: seq<State>) {
    forall i, j :: 0 <= i < j < |states| ==> states[i].outcome.worker != states[j].outcome.worker
  }

  function Outcomes(states: seq<State>): (r: seq<QueueOutcome>)
    ensures |r| == |states| && forall i :: 0 <= i < |states| ==> r[i] == states[i].outcome
  {
    seq(|states|, i requires 0 <= i < |states| => states[i].outcome)
  }

  function Drains(states: seq<State>): (r: seq<seq<int>>)
    ensures |r| == |states| && forall i :: 0 <= i < |states| ==> r[i] == Sort(states[i].observed)
  {
    seq(|states|, i requires 0 <= i < |states| => Sort(states[i].observed))
  }

  /** The reconciler's record: what it drained for each worker. */
  function ByWorker(outcomes: seq<QueueOutcome>, drains: seq<seq<int>>): map<string, seq<int>>
    requires |outcomes| == |drains|
  {
    if outcomes == [] then map[]
    else
      var n := |outcomes| - 1;
      ByWorker(outcomes[..n], drains[..n])[outcomes[n].worker := drains[n]]
  }

  lemma {:induction false} ByWorkerAt(outcomes: seq<QueueOutcome>, drains: seq<seq<int>>, i: nat)
    requires |outcomes| == |drains| && i < |outcomes|
    requires forall j, k :: 0 <= j < k < |outcomes| ==> outcomes[j].worker != outcomes[k].worker
    ensures ObservedBy(ByWorker(outcomes, drains), outcomes[i].worker) == drains[i]
  {
    var n := |outcomes| - 1;
    if i < n {
      ByWorkerAt(outcomes[..n], drains[..n], i);
      assert outcomes[i].worker != outcomes[n].worker;
    }
  }

  lemma {:induction false} ByWorkerKnown(outcomes: seq<QueueOutcome>, drains: seq<seq<int>>, worker: string)
    requires |outcomes| == |drains| && worker in ByWorker(outcomes, drains)
    ensures Known(outcomes, worker)
  {
    var n := |outcomes| - 1;
    if worker == outcomes[n].worker {
    } else {
      ByWorkerKnown(outcomes[..n], drains[..n], worker);
      var i :| 0 <= i < n && outcomes[..n][i].worker == worker;
      assert outcomes[i].worker == worker;
    }
  }

  lemma {:induction false} AllReconciledIff(outcomes: seq<QueueOutcome>, drains: seq<seq<int>>)
    requires |outcomes| == |drains|
    requires forall j, k :: 0 <= j < k < |outcomes| ==> outcomes[j].worker != outcomes[k].worker
    ensures Reconciled(outcomes, ByWorker(outcomes, drains)) <==>
              forall i :: 0 <= i < |outcomes| ==> WorkerReconciled(outcomes[i], drains[i])
  {
    var report := ByWorker(outcomes, drains);
    forall i | 0 <= i < |outcomes| ensures ObservedBy(report, outcomes[i].worker) == drains[i] {
      ByWorkerAt(outcomes, drains, i);
    }
    forall w | w in report ensures Known(outcomes, w) {
      ByWorkerKnown(outcomes, drains, w);
    }
    AloneIff(outcomes, drains, report);
  }

  lemma {:induction false} AloneIff(outcomes: seq<QueueOutcome>, drains: seq<seq<int>>, report: map<string, seq<int>>)
    requires |outcomes| == |drains|
    requires forall i :: 0 <= i < |outcomes| ==> ObservedBy(report, outcomes[i].worker) == drains[i]
    ensures AllReconciled(outcomes, report) <==>
              forall i :: 0 <= i < |outcomes| ==> WorkerReconciled(outcomes[i], drains[i])
  {
    forall i | 0 <= i < |outcomes|
      ensures ReconciledAlone(outcomes[i], report) <==> WorkerReconciled(outcomes[i], drains[i])
    {
    }
  }

  /** The whole report is reconciled exactly when every worker's run is accepted. */
  lemma {:induction false} WorkersReconciled(states: seq<State>)
    requires WorkersDistinct(states) && forall i :: 0 <= i < |states| ==> Finished(states[i])
    ensures Reconciled(Outcomes(states), ByWorker(Outcomes(states), Drains(states))) <==>
              forall i :: 0 <= i < |states| ==> Accepted(states[i])
  {
    AllReconciledIff(Outcomes(states), Drains(states));
    forall i | 0 <= i < |states|
      ensures Accepted(states[i]) <==> WorkerReconciled(Outcomes(states)[i], Drains(states)[i])
    {
    }
  }
}
