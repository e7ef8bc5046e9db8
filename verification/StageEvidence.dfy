/**
 * Stage counters: observed by concurrent operations (`observeStage` in src/worker.ts),
 * merged across clients (src/orchestration/pressure.ts) and re-read by the guidance
 * (src/operational-guidance.ts).
 */
module StageEvidence {
  import opened Wrappers
  import opened Latency

  datatype ErrorClass = Timeout | Connection | Capacity | Conflict | Cancelled | Protocol | Unknown

  /** The classes for which a durable operation's outcome is unknown. */
  predicate IsAmbiguousDurable(c: ErrorClass) {
    c == Timeout || c == Connection || c == Cancelled || c == Protocol
  }

  datatype Cancellations = Cancellations(failed: nat, ambiguous: nat)

  datatype ErrorSample = ErrorSample(errorClass: ErrorClass, error: string)

  datatype Stage = Stage(
    started: nat,
    succeeded: nat,
    failed: nat,
    ambiguous: nat,
    retryableBackpressure: nat,
    shutdown: Cancellations,
    latency: Histogram,
    errorClasses: map<ErrorClass, nat>,
    errorSamples: seq<ErrorSample>
  )

  const EMPTY_STAGE := Stage(0, 0, 0, 0, 0, Cancellations(0, 0), EMPTY, map[], [])

  function ClassCount(classes: map<ErrorClass, nat>, c: ErrorClass): nat {
    if c in classes then classes[c] else 0
  }

  function AmbiguousTotal(classes: map<ErrorClass, nat>): nat {
    ClassCount(classes, Timeout) + ClassCount(classes, Connection)
    + ClassCount(classes, Cancelled) + ClassCount(classes, Protocol)
  }

  function ClassTotal(classes: map<ErrorClass, nat>): nat {
    AmbiguousTotal(classes) + ClassCount(classes, Capacity) + ClassCount(classes, Conflict)
    + ClassCount(classes, Unknown)
  }

  function Min(x: int, y: int): int {
    if x < y then x else y
  }

  // ---------- observing ----------

  /** What one observed operation, or its retry callback, does to the shared counters. */
  datatype Event =
    | Begin
    | Retry
    | Succeed(elapsedMs: real)
    | Fail(error: ErrorSample, shuttingDown: bool, elapsedMs: real)

  /** The counters of a stage and the number of operations between their begin and their end. */
  datatype Observed = Observed(stage: Stage, inFlight: nat)

  function RecordError(s: Stage, error: ErrorSample, ambiguous: bool, shuttingDown: bool): Stage {
    var c := error.errorClass;
    var s' := s.(errorClasses := s.errorClasses[c := ClassCount(s.errorClasses, c) + 1],
                 errorSamples := if |s.errorSamples| < 5 then s.errorSamples + [error] else s.errorSamples);
    if ambiguous then
      s'.(ambiguous := s.ambiguous + 1,
          shutdown := if shuttingDown then s.shutdown.(ambiguous := s.shutdown.ambiguous + 1) else s.shutdown)
    else
      s'.(failed := s.failed + 1,
          shutdown := if shuttingDown then s.shutdown.(failed := s.shutdown.failed + 1) else s.shutdown)
  }

  /** What an event does to the outcome counters. */
  function Outcome(durable: bool, s: Stage, e: Event): Stage {
    match e
    case Begin => s.(started := s.started + 1)
    case Retry => s.(retryableBackpressure := s.retryableBackpressure + 1)
    case Succeed(_) => s.(succeeded := s.succeeded + 1)
    case Fail(error, shuttingDown, _) =>
      RecordError(s, error, durable && IsAmbiguousDurable(error.errorClass), shuttingDown)
  }

  /**
   * One atomic stretch of `observeStage`: from its start to the awaited operation, or from the
   * operation's end through the counters and the latency. `durable` is the caller's flag.
   */
  function Next(durable: bool, o: Observed, e: Event): Observed
    requires Enabled(o, e)
  {
    var counted := Outcome(durable, o.stage, e);
    match e
    case Begin => Observed(counted, o.inFlight + 1)
    case Retry => Observed(counted, o.inFlight)
    case Succeed(elapsedMs) => Observed(counted.(latency := Record(o.stage.latency, elapsedMs)), o.inFlight - 1)
    case Fail(_, _, elapsedMs) => Observed(counted.(latency := Record(o.stage.latency, elapsedMs)), o.inFlight - 1)
  }

  predicate Enabled(o: Observed, e: Event) {
    |o.stage.latency.buckets| == BUCKETS && (e.Succeed? || e.Fail? ==> o.inFlight > 0)
  }

  /** The counters after some interleaving of the operations' stretches. */
  function Run(durable: bool, events: seq<Event>): Option<Observed> {
    if events == [] then Some(Observed(EMPTY_STAGE, 0))
    else
      var before, e := Run(durable, events[..|events| - 1]), events[|events| - 1];
      if before.Some? && Enabled(before.value, e) then Some(Next(durable, before.value, e)) else None
  }

  /** The outcome counters: conserved, classified and never exceeded by shutdown cancellations. */
  ghost predicate Counts(durable: bool, o: Observed) {
    var s := o.stage;
    && s.started == s.succeeded + s.failed + s.ambiguous + o.inFlight
    && ClassTotal(s.errorClasses) == s.failed + s.ambiguous
    && s.ambiguous == (if durable then AmbiguousTotal(s.errorClasses) else 0)
    && s.shutdown.failed <= s.failed && s.shutdown.ambiguous <= s.ambiguous
    && |s.errorSamples| == Min(5, s.failed + s.ambiguous)
  }

  /** The latency histogram holds one sample per finished operation. */
  ghost predicate LatencyCounts(s: Stage) {
    Consistent(s.latency) && s.latency.count == s.succeeded + s.failed + s.ambiguous
  }

  ghost predicate Conserved(durable: bool, o: Observed) {
    Counts(durable, o) && o.stage.latency.count == o.stage.succeeded + o.stage.failed + o.stage.ambiguous
  }

  /** What remains true of a stage when it is merged with others. */
  ghost predicate Balanced(s: Stage) {
    && LatencyCounts(s)
    && s.latency.count <= s.started
    && ClassTotal(s.errorClasses) == s.failed + s.ambiguous
    && s.ambiguous <= AmbiguousTotal(s.errorClasses)
    && s.shutdown.failed <= s.failed && s.shutdown.ambiguous <= s.ambiguous
  }

  /** An error adds one to the total of its class, and to the ambiguous total when its class is ambiguous. */
  lemma ErrorCounted(classes: map<ErrorClass, nat>, c: ErrorClass)
    ensures var classes' := classes[c := ClassCount(classes, c) + 1];
            && ClassTotal(classes') == ClassTotal(classes) + 1
            && AmbiguousTotal(classes') == AmbiguousTotal(classes) + if IsAmbiguousDurable(c) then 1 else 0
  {
    var classes' := classes[c := ClassCount(classes, c) + 1];
    assert forall d :: ClassCount(classes', d) == ClassCount(classes, d) + if d == c then 1 else 0;
  }

  lemma ErrorKeeps(durable: bool, s: Stage, error: ErrorSample, shuttingDown: bool, inFlight: nat)
    requires Counts(durable, Observed(s, inFlight)) && inFlight > 0
    ensures var s' := RecordError(s, error, durable && IsAmbiguousDurable(error.errorClass), shuttingDown);
            && Counts(durable, Observed(s', inFlight - 1)) && s'.latency == s.latency
            && s'.succeeded + s'.failed + s'.ambiguous == s.succeeded + s.failed + s.ambiguous + 1
  {
    ErrorCounted(s.errorClasses, error.errorClass);
  }

  lemma NextConserves(durable: bool, o: Observed, e: Event)
    requires Conserved(durable, o) && Enabled(o, e)
    ensures Conserved(durable, Next(durable, o, e))
  {
    if e.Fail? {
      ErrorKeeps(durable, o.stage, e.error, e.shuttingDown, o.inFlight);
    }
  }

  lemma NothingConserves(durable: bool)
    ensures Conserved(durable, Observed(EMPTY_STAGE, 0))
  {
    StartConserves(durable, EMPTY_STAGE);
  }

  lemma StartConserves(durable: bool, s: Stage)
    requires s.started == s.succeeded == s.failed == s.ambiguous == s.latency.count == 0
    requires s.shutdown == Cancellations(0, 0) && s.errorClasses == map[] && s.errorSamples == []
    ensures Conserved(durable, Observed(s, 0))
  {
    NoErrors(s.errorClasses);
  }

  lemma NoErrors(classes: map<ErrorClass, nat>)
    requires classes == map[]
    ensures ClassTotal(classes) == 0 && AmbiguousTotal(classes) == 0
  {
    assert forall c :: ClassCount(classes, c) == 0;
  }

  /** Every interleaving of observed operations keeps the counters in balance. */
  lemma {:induction false} ObservationConserves(durable: bool, events: seq<Event>)
    requires Run(durable, events).Some?
    ensures Conserved(durable, Run(durable, events).value)
  {
    if events == [] {
      NothingConserves(durable);
    } else {
      var front := events[..|events| - 1];
      ObservationConserves(durable, front);
      NextConserves(durable, Run(durable, front).value, events[|events| - 1]);
    }
  }

  /** The latencies of the operations that ended, in the order they did. */
  function Elapsed(events: seq<Event>): seq<real> {
    if events == [] then []
    else
      var front, last := Elapsed(events[..|events| - 1]), events[|events| - 1];
      if last.Succeed? || last.Fail? then front + [last.elapsedMs] else front
  }

  /** What one event does to the histogram, and nothing else does. */
  lemma NextRecords(durable: bool, o: Observed, e: Event)
    requires Enabled(o, e)
    ensures Next(durable, o, e).stage.latency
         == if e.Succeed? || e.Fail? then Record(o.stage.latency, e.elapsedMs) else o.stage.latency
  {
  }

  lemma RecordedNext(samples: seq<real>, x: real)
    ensures Recorded(samples + [x]) == Record(Recorded(samples), x)
  {
    assert (samples + [x])[..|samples|] == samples;
  }

  /** The shared histogram is the one recorded from these latencies, however the operations interleave. */
  lemma {:induction false} ObservationRecords(durable: bool, events: seq<Event>)
    requires Run(durable, events).Some?
    ensures Run(durable, events).value.stage.latency == Recorded(Elapsed(events))
  {
    if events != [] {
      var front, last := events[..|events| - 1], events[|events| - 1];
      ObservationRecords(durable, front);
      NextRecords(durable, Run(durable, front).value, last);
      if last.Succeed? || last.Fail? {
        RecordedNext(Elapsed(front), last.elapsedMs);
      }
    }
  }

  /** So every stage a worker logs can be merged and parsed, whatever was still in flight. */
  lemma ObservedIsBalanced(durable: bool, events: seq<Event>)
    requires Run(durable, events).Some?
    ensures Balanced(Run(durable, events).value.stage)
  {
    ObservationConserves(durable, events);
    ObservationRecords(durable, events);
    RecordedConsistent(Elapsed(events));
  }

  // ---------- what the counters count ----------

  /** What an event contributes to; errors are told apart by doubt and by whether the worker was shutting down. */
  datatype Kind = Begun | Retried | Ended | DefiniteError | DefiniteAtShutdown | AmbiguousError | AmbiguousAtShutdown

  /** Only a durable operation can fail ambiguously, and only with an error of one of four classes. */
  predicate InDoubt(durable: bool, e: Event) {
    durable && e.Fail? && !e.error.errorClass.Capacity? && !e.error.errorClass.Conflict? && !e.error.errorClass.Unknown?
  }

  predicate Is(k: Kind, durable: bool, e: Event) {
    match k
    case Begun => e.Begin?
    case Retried => e.Retry?
    case Ended => e.Succeed?
    case DefiniteError => e.Fail? && !InDoubt(durable, e) && !e.shuttingDown
    case DefiniteAtShutdown => e.Fail? && !InDoubt(durable, e) && e.shuttingDown
    case AmbiguousError => InDoubt(durable, e) && !e.shuttingDown
    case AmbiguousAtShutdown => InDoubt(durable, e) && e.shuttingDown
  }

  function Count(k: Kind, durable: bool, events: seq<Event>): nat {
    if events == [] then 0
    else Count(k, durable, events[..|events| - 1]) + if Is(k, durable, events[|events| - 1]) then 1 else 0
  }

  /** The errors of the operations that failed, in the order they did. */
  function ErrorsIn(events: seq<Event>): seq<ErrorSample> {
    if events == [] then []
    else
      var front, last := ErrorsIn(events[..|events| - 1]), events[|events| - 1];
      if last.Fail? then front + [last.error] else front
  }

  function OfClass(errors: seq<ErrorSample>, c: ErrorClass): nat {
    if errors == [] then 0
    else OfClass(errors[..|errors| - 1], c) + if errors[|errors| - 1].errorClass == c then 1 else 0
  }

  /** The counters of a stage are the numbers of events of each kind. */
  ghost predicate Counted(s: Stage, durable: bool, events: seq<Event>) {
    && s.started == Count(Begun, durable, events)
    && s.retryableBackpressure == Count(Retried, durable, events)
    && s.succeeded == Count(Ended, durable, events)
    && s.failed == Count(DefiniteError, durable, events) + Count(DefiniteAtShutdown, durable, events)
    && s.ambiguous == Count(AmbiguousError, durable, events) + Count(AmbiguousAtShutdown, durable, events)
    && s.shutdown.failed == Count(DefiniteAtShutdown, durable, events)
    && s.shutdown.ambiguous == Count(AmbiguousAtShutdown, durable, events)
  }

  ghost predicate Classified(s: Stage, errors: seq<ErrorSample>) {
    && (forall c :: ClassCount(s.errorClasses, c) == OfClass(errors, c))
    && s.errorSamples == Take(errors, 5)
  }

  lemma CountNext(k: Kind, durable: bool, events: seq<Event>, e: Event)
    ensures Count(k, durable, events + [e]) == Count(k, durable, events) + if Is(k, durable, e) then 1 else 0
  {
    assert (events + [e])[..|events|] == events;
  }

  /** The seven counters, as one value. */
  datatype Tallies = Tallies(
    started: nat, retried: nat, succeeded: nat, failed: nat, ambiguous: nat, shutdown: Cancellations)

  function TalliesOf(s: Stage): Tallies {
    Tallies(s.started, s.retryableBackpressure, s.succeeded, s.failed, s.ambiguous, s.shutdown)
  }

  function One(b: bool): nat {
    if b then 1 else 0
  }

  function Added(t: Tallies, durable: bool, e: Event): Tallies {
    Tallies(t.started + One(Is(Begun, durable, e)),
            t.retried + One(Is(Retried, durable, e)),
            t.succeeded + One(Is(Ended, durable, e)),
            t.failed + One(e.Fail? && !InDoubt(durable, e)),
            t.ambiguous + One(InDoubt(durable, e)),
            Cancellations(t.shutdown.failed + One(Is(DefiniteAtShutdown, durable, e)),
                          t.shutdown.ambiguous + One(Is(AmbiguousAtShutdown, durable, e))))
  }

  /** What an event adds to the counters. */
  lemma OutcomeAdds(durable: bool, s: Stage, e: Event)
    ensures TalliesOf(Outcome(durable, s, e)) == Added(TalliesOf(s), durable, e)
  {
    if e.Fail? {
      ErrorAdds(s, durable, e);
    }
  }

  lemma NextOutcome(durable: bool, o: Observed, e: Event)
    requires Enabled(o, e)
    ensures var t := Next(durable, o, e).stage;
            t == Outcome(durable, o.stage, e).(latency := t.latency)
  {
  }

  lemma ErrorAdds(s: Stage, durable: bool, e: Event)
    requires e.Fail?
    ensures TalliesOf(RecordError(s, e.error, durable && IsAmbiguousDurable(e.error.errorClass), e.shuttingDown))
         == Added(TalliesOf(s), durable, e)
  {
    assert durable && IsAmbiguousDurable(e.error.errorClass) <==> InDoubt(durable, e);
  }

  lemma NextCounted(durable: bool, o: Observed, e: Event, events: seq<Event>)
    requires Enabled(o, e) && Counted(o.stage, durable, events)
    ensures Counted(Next(durable, o, e).stage, durable, events + [e])
  {
    NextOutcome(durable, o, e);
    OutcomeAdds(durable, o.stage, e);
    AddedCounted(o.stage, Next(durable, o, e).stage, durable, e, events);
  }

  lemma AddedCounted(s: Stage, t: Stage, durable: bool, e: Event, events: seq<Event>)
    requires Counted(s, durable, events) && TalliesOf(t) == Added(TalliesOf(s), durable, e)
    ensures Counted(t, durable, events + [e])
  {
    CountNext(Begun, durable, events, e);
    CountNext(Retried, durable, events, e);
    CountNext(Ended, durable, events, e);
    CountNext(DefiniteError, durable, events, e);
    CountNext(DefiniteAtShutdown, durable, events, e);
    CountNext(AmbiguousError, durable, events, e);
    CountNext(AmbiguousAtShutdown, durable, events, e);
  }

  lemma ErrorClassified(s: Stage, error: ErrorSample, ambiguous: bool, shuttingDown: bool, errors: seq<ErrorSample>)
    requires Classified(s, errors)
    ensures Classified(RecordError(s, error, ambiguous, shuttingDown), errors + [error])
  {
    var t := RecordError(s, error, ambiguous, shuttingDown);
    assert (errors + [error])[..|errors|] == errors;
    forall c ensures ClassCount(t.errorClasses, c) == OfClass(errors + [error], c) {
      assert ClassCount(t.errorClasses, c) == ClassCount(s.errorClasses, c) + if c == error.errorClass then 1 else 0;
    }
  }

  lemma NextClassified(durable: bool, o: Observed, e: Event, errors: seq<ErrorSample>)
    requires Enabled(o, e) && Classified(o.stage, errors)
    ensures Classified(Next(durable, o, e).stage, if e.Fail? then errors + [e.error] else errors)
  {
    if e.Fail? {
      ErrorClassified(o.stage, e.error, durable && IsAmbiguousDurable(e.error.errorClass), e.shuttingDown, errors);
    }
  }

  /** Over every interleaving each counter, class and sample is that of the events themselves. */
  lemma {:induction false} CountersCount(durable: bool, events: seq<Event>)
    requires Run(durable, events).Some?
    ensures Counted(Run(durable, events).value.stage, durable, events)
    ensures Classified(Run(durable, events).value.stage, ErrorsIn(events))
  {
    if events == [] {
      NothingClassified();
    } else {
      var front, last := events[..|events| - 1], events[|events| - 1];
      CountersCount(durable, front);
      NextCounted(durable, Run(durable, front).value, last, front);
      NextClassified(durable, Run(durable, front).value, last, ErrorsIn(front));
      assert events == front + [last];
    }
  }

  lemma NothingClassified()
    ensures Classified(EMPTY_STAGE, [])
  {
    var classes: map<ErrorClass, nat> := EMPTY_STAGE.errorClasses;
    assert forall c :: ClassCount(classes, c) == 0;
  }

  /** The counter object that the operations of a worker share. */
  class StageMetrics {
    var started: nat
    var succeeded: nat
    var failed: nat
    var ambiguous: nat
    var retryableBackpressure: nat
    var shutdown: Cancellations
    var count: nat
    var totalMs: real
    var maxMs: real
    const buckets: array<nat>
    var overflow: nat
    var errorClasses: map<ErrorClass, nat>
    var errorSamples: seq<ErrorSample>
    ghost var inFlight: nat

    ghost function State(): Observed
      reads this, buckets
    {
      Observed(
        Stage(started, succeeded, failed, ambiguous, retryableBackpressure, shutdown,
              Histogram(count, totalMs, maxMs, buckets[..], overflow), errorClasses, errorSamples),
        inFlight)
    }

    ghost predicate Valid()
      reads this
    {
      buckets.Length == BUCKETS
    }

    constructor ()
      ensures Valid() && fresh(buckets) && State() == Observed(EMPTY_STAGE, 0)
    {
      started, succeeded, failed, ambiguous, retryableBackpressure := 0, 0, 0, 0, 0;
      shutdown, count, totalMs, maxMs, overflow := Cancellations(0, 0), 0, 0.0, 0.0, 0;
      buckets := new nat[BUCKETS](_ => 0);
      errorClasses, errorSamples, inFlight := map[], [], 0;
      new;
      assert buckets[..] == Zeros();
    }

    /** The sample's bucket, or the overflow beyond the last. */
    method CountSample(index: nat)
      requires Valid() && index <= BUCKETS
      modifies this`overflow, buckets
      ensures buckets[..] == Bump(old(buckets[..]), index)
      ensures overflow == old(overflow) + if index < BUCKETS then 0 else 1
    {
      if index == BUCKETS {
        overflow := overflow + 1;
      } else {
        buckets[index] := buckets[index] + 1;
      }
    }

    method RecordStageLatency(elapsedMs: real)
      requires Valid()
      modifies this`count, this`totalMs, this`maxMs, this`overflow, buckets
      ensures Valid()
      ensures State() == old(State()).(stage := old(State()).stage.(latency := Record(old(State()).stage.latency, elapsedMs)))
    {
      ghost var before := Histogram(count, totalMs, maxMs, buckets[..], overflow);
      var value := Max(0.0, elapsedMs);
      count := count + 1;
      totalMs := totalMs + value;
      maxMs := Max(maxMs, value);
      CountSample(BucketIndex(value));
      assert Histogram(count, totalMs, maxMs, buckets[..], overflow) == Record(before, elapsedMs);
    }

    method RecordStageError(error: ErrorSample, isAmbiguous: bool, shuttingDown: bool)
      requires Valid()
      modifies this`failed, this`ambiguous, this`shutdown, this`errorClasses, this`errorSamples
      ensures Valid()
      ensures State() == old(State()).(stage := RecordError(old(State()).stage, error, isAmbiguous, shuttingDown))
    {
      if isAmbiguous {
        ambiguous := ambiguous + 1;
        if shuttingDown { shutdown := shutdown.(ambiguous := shutdown.ambiguous + 1); }
      } else {
        failed := failed + 1;
        if shuttingDown { shutdown := shutdown.(failed := shutdown.failed + 1); }
      }
      var c := error.errorClass;
      errorClasses := errorClasses[c := ClassCount(errorClasses, c) + 1];
      if |errorSamples| < 5 {
        errorSamples := errorSamples + [error];
      }
    }

    /** `observeStage` up to the awaited operation. */
    method BeginOperation(ghost durable: bool)
      requires Valid()
      modifies this
      ensures Valid() && State() == Next(durable, old(State()), Begin)
    {
      started := started + 1;
      inFlight := inFlight + 1;
    }

    /** A retry callback passed to the operation. */
    method CountRetry(ghost durable: bool)
      requires Valid()
      modifies this
      ensures Valid() && State() == Next(durable, old(State()), Retry)
    {
      retryableBackpressure := retryableBackpressure + 1;
    }

    /** `observeStage` from the operation's successful end. */
    method OperationSucceeded(ghost durable: bool, elapsedMs: real)
      requires Valid() && inFlight > 0
      modifies this, buckets
      ensures Valid() && State() == Next(durable, old(State()), Succeed(elapsedMs))
    {
      succeeded := succeeded + 1;
      RecordStageLatency(elapsedMs);
      inFlight := inFlight - 1;
    }

    /** `observeStage` from the operation's failure. */
    method OperationFailed(durable: bool, error: ErrorSample, shuttingDown: bool, elapsedMs: real)
      requires Valid() && inFlight > 0
      modifies this, buckets
      ensures Valid() && State() == Next(durable, old(State()), Fail(error, shuttingDown, elapsedMs))
    {
      RecordStageError(error, durable && IsAmbiguousDurable(error.errorClass), shuttingDown);
      RecordStageLatency(elapsedMs);
      inFlight := inFlight - 1;
    }
  }

  // ---------- merging stages ----------

  function MergeClasses(a: map<ErrorClass, nat>, b: map<ErrorClass, nat>): map<ErrorClass, nat> {
    map c | c in a.Keys + b.Keys :: ClassCount(a, c) + ClassCount(b, c)
  }

  function Take(samples: seq<ErrorSample>, n: nat): seq<ErrorSample> {
    if |samples| <= n then samples else samples[..n]
  }

  /** `mergeStage`. */
  function MergeStage(target: Stage, source: Stage): Stage
    requires AllShaped([target.latency, source.latency])
  {
    Stage(
      target.started + source.started,
      target.succeeded + source.succeeded,
      target.failed + source.failed,
      target.ambiguous + source.ambiguous,
      target.retryableBackpressure + source.retryableBackpressure,
      Cancellations(target.shutdown.failed + source.shutdown.failed,
                    target.shutdown.ambiguous + source.shutdown.ambiguous),
      Merged([target.latency, source.latency]),
      MergeClasses(target.errorClasses, source.errorClasses),
      Take(target.errorSamples + source.errorSamples, 10))
  }

  predicate Shaped(s: Stage) {
    |s.latency.buckets| == BUCKETS
  }

  lemma MergeShaped(a: Stage, b: Stage)
    requires Shaped(a) && Shaped(b)
    ensures AllShaped([a.latency, b.latency])
  {
  }

  lemma MergeBalanced(a: Stage, b: Stage)
    requires Balanced(a) && Balanced(b)
    ensures AllShaped([a.latency, b.latency])
    ensures Balanced(MergeStage(a, b))
  {
    MergedPair(a.latency, b.latency);
    AddConsistent(a.latency, b.latency);
    var m := MergeClasses(a.errorClasses, b.errorClasses);
    assert forall c :: ClassCount(m, c) == ClassCount(a.errorClasses, c) + ClassCount(b.errorClasses, c);
  }
}
