/**
 * Whole crash-cut runs: the writers (src/workloads/durability-crash-cuts.ts), a broker that may be at
 * fault, and the scenario's verdict on them (src/orchestration/durability-crash-cuts.ts).
 */
module CrashCutRun {
  import opened Wrappers
  import opened Sequences
  import opened DurabilityLedger
  import opened DurabilityVerifier

  // ---------- the verdict ----------

  datatype RunError = VerifierFailed(verifier: VerifyError) | Rejected(ledger: LedgerError)

  /** The sequences of the run that a verifier comes across. */
  function Seen(a: Answers, d: Domain, iterations: nat): set<int> {
    set n | 0 <= n <= iterations && Found(a, d, n) > 0
  }

  ghost predicate FoundOnce(a: Answers, d: Domain, iterations: nat) {
    forall n: nat :: n <= iterations ==> Found(a, d, n) <= 1
  }

  /** What the log records and the broker's answers must say for verifier, analysis and verdict all to pass. */
  ghost predicate RunPasses(records: seq<Record>, a: Answers, iterations: nat) {
    && AllReadable(records)
    && ReadsThrough(a, iterations)
    && forall d: Domain :: PassesIn(records, a, iterations, d)
  }

  ghost predicate PassesIn(records: seq<Record>, a: Answers, iterations: nat, d: Domain) {
    FoundOnce(a, d, iterations) && RecordsAgree(records, Seen(a, d, iterations), iterations, d)
  }

  ghost predicate RecordsAgree(records: seq<Record>, seen: set<int>, iterations: nat, d: Domain) {
    && (forall sequence :: 0 <= sequence <= iterations ==> sequence in Recorded(records, d, Started))
    && 0 in Recorded(records, d, Acknowledged)
    && Recorded(records, d, Acknowledged) <= seen <= Recorded(records, d, Started)
  }

  lemma ListDecides(values: seq<Option<nat>>, a: Answers, iterations: nat, d: Domain)
    requires TellsOf(values, a, iterations, d)
    ensures ReadableValues(values) <==> FoundOnce(a, d, iterations)
    ensures Values(values) == Seen(a, d, iterations)
  {
    DistinctIffCounts(values);
    assert None !in values;
    forall x ensures x in Values(values) <==> x in Seen(a, d, iterations) {
      if x >= 0 {
        var n: nat := x;
        assert Some(n) in values <==> multiset(values)[Some(n)] > 0;
      }
    }
    if FoundOnce(a, d, iterations) {
      forall x ensures multiset(values)[x] <= 1 {
        if x.Some? {
          assert multiset(values)[Some(x.value)] <= 1;
        }
      }
    }
    if forall x :: multiset(values)[x] <= 1 {
      forall n: nat | n <= iterations ensures Found(a, d, n) <= 1 {
        assert multiset(values)[Some(n)] <= 1;
      }
    }
  }

  lemma ReportDecides(records: seq<Record>, report: Report, a: Answers, iterations: nat)
    requires Tells(report, a, iterations)
    ensures ReadableReport(report) && Durable(records, report, iterations) <==>
              forall d: Domain :: PassesIn(records, a, iterations, d)
  {
    forall d: Domain
      ensures Reported(report, d) && DomainDurable(records, report, iterations, d) <==> PassesIn(records, a, iterations, d)
    {
      assert TellsOf(report[d], a, iterations, d);
      ListDecides(report[d], a, iterations, d);
    }
  }

  /** The end of the scenario: the verifier reads the state back, its report is analysed and judged. */
  method JudgeRun(baselineLogs: seq<seq<Record>>, cutLogs: seq<seq<Record>>, a: Answers, iterations: nat)
    returns (error: Option<RunError>)
    ensures error.None? <==> RunPasses(Flatten(baselineLogs + cutLogs), a, iterations)
  {
    var report := VerifyState(a, iterations);
    if report.Err? {
      return Some(VerifierFailed(report.error));
    }
    ghost var records := Flatten(baselineLogs + cutLogs);
    ReportDecides(records, report.value, a, iterations);
    var ledger := AnalyzeDurabilityLedger(baselineLogs, cutLogs, [Some(report.value)]);
    if ledger.Err? {
      return Some(Rejected(ledger.error));
    }
    forall d: Domain ensures d in ledger.value {
      assert HasEntry(ledger.value, records, report.value, d);
    }
    DurableIff(ledger.value, records, report.value, iterations);
    var verdict := AssertDurabilityLedger(ledger.value, iterations);
    return if verdict.Some? then Some(Rejected(verdict.value)) else None;
  }

  // ---------- the run ----------

  /**
   * The writers and the broker of a run: what was logged, which sequences were dispatched, which
   * writes have no outcome yet, and what the broker holds, copies included.
   */
  datatype State = State(
    log: seq<Record>,
    dispatched: set<nat>,
    pending: set<(Domain, nat)>,
    store: multiset<(Domain, nat)>
  )

  /**
   * A write reaches the store once, at any time after its dispatch, even when it failed at the client.
   * The last three are faults: a write is lost, is stored again, or appears without a dispatch. A key
   * has one value, so nothing is stored twice in the key-value domain.
   */
  datatype Step =
    | Dispatch(sequence: nat)
    | Persist(domain: Domain, sequence: nat)
    | Acknowledge(domain: Domain, sequence: nat)
    | Fail(domain: Domain, sequence: nat)
    | Lose(domain: Domain, sequence: nat)
    | Duplicate(domain: Domain, sequence: nat)
    | Conjure(domain: Domain, sequence: nat)

  predicate Honest(step: Step) {
    !step.Lose? && !step.Duplicate? && !step.Conjure?
  }

  predicate Enabled(s: State, step: Step) {
    match step
    case Dispatch(n) => n !in s.dispatched
    case Persist(d, n) => n in s.dispatched && (d, n) !in s.store
    case Acknowledge(d, n) => (d, n) in s.pending && (d, n) in s.store
    case Fail(d, n) => (d, n) in s.pending
    case Lose(d, n) => (d, n) in s.store
    case Duplicate(d, n) => (d, n) in s.store && d != Kv
    case Conjure(d, n) => n !in s.dispatched && (d, n) !in s.store
  }

  function Note(d: Domain, kind: Kind, n: nat): Record {
    Record(Some(d), kind, Some(n))
  }

  /** A writer logs that all four domains started before any of them can have an outcome. */
  function StartRecords(n: nat): seq<Record> {
    [Note(Queue, Started, n), Note(Kv, Started, n), Note(Stream, Started, n), Note(Schedule, Started, n)]
  }

  function Next(s: State, step: Step): State {
    match step
    case Dispatch(n) =>
      State(s.log + StartRecords(n), s.dispatched + {n},
            s.pending + {(Queue, n), (Kv, n), (Stream, n), (Schedule, n)}, s.store)
    case Persist(d, n) => s.(store := s.store + multiset{(d, n)})
    case Acknowledge(d, n) => s.(log := s.log + [Note(d, Acknowledged, n)], pending := s.pending - {(d, n)})
    case Fail(d, n) => s.(log := s.log + [Note(d, Failed, n)], pending := s.pending - {(d, n)})
    case Lose(d, n) => s.(store := s.store - multiset{(d, n)})
    case Duplicate(d, n) => s.(store := s.store + multiset{(d, n)})
    case Conjure(d, n) => s.(store := s.store + multiset{(d, n)})
  }

  function Run(steps: seq<Step>): Option<State> {
    if steps == [] then Some(State([], {}, {}, multiset{}))
    else
      var before, step := Run(steps[..|steps| - 1]), steps[|steps| - 1];
      if before.Some? && Enabled(before.value, step) then Some(Next(before.value, step)) else None
  }

  // ---------- what every step keeps ----------

  /** The log tells what was dispatched, and only dispatched writes have an outcome. */
  ghost predicate LogInv(s: State) {
    && AllReadable(s.log)
    && (forall w :: w in s.pending ==> w.1 in s.dispatched)
    && (forall d: Domain, n: int :: n in Recorded(s.log, d, Started) <==> n >= 0 && (n as nat) in s.dispatched)
    && forall d: Domain, n: int :: n in Recorded(s.log, d, Acknowledged) ==> n >= 0 && (n as nat) in s.dispatched
  }

  ghost predicate KeysOnce(s: State) {
    forall n: nat :: s.store[(Kv, n)] <= 1
  }

  /** A store that keeps what it acknowledged, only what was dispatched, and nothing twice. */
  ghost predicate StoreInv(s: State) {
    && (forall d: Domain, n: nat :: n in Recorded(s.log, d, Acknowledged) ==> (d, n) in s.store)
    && forall d: Domain, n: nat :: (d, n) in s.store ==> n in s.dispatched && s.store[(d, n)] == 1
  }

  lemma StartedNext(records: seq<Record>, n: nat, d: Domain, kind: Kind)
    ensures Recorded(records + StartRecords(n), d, kind)
         == Recorded(records, d, kind) + (if kind == Started then {n} else {})
  {
    var r1 := records + [Note(Queue, Started, n)];
    var r2 := r1 + [Note(Kv, Started, n)];
    var r3 := r2 + [Note(Stream, Started, n)];
    RecordedNext(records, Note(Queue, Started, n), d, kind);
    RecordedNext(r1, Note(Kv, Started, n), d, kind);
    RecordedNext(r2, Note(Stream, Started, n), d, kind);
    RecordedNext(r3, Note(Schedule, Started, n), d, kind);
    assert records + StartRecords(n) == r3 + [Note(Schedule, Started, n)];
    match d case Queue => case Kv => case Stream => case Schedule =>
  }

  lemma LogNext(s: State, step: Step, d: Domain)
    requires Enabled(s, step)
    ensures Recorded(Next(s, step).log, d, Started)
         == Recorded(s.log, d, Started) + (if step.Dispatch? then {step.sequence} else {})
    ensures Recorded(Next(s, step).log, d, Acknowledged)
         == Recorded(s.log, d, Acknowledged)
            + (if step.Acknowledge? && step.domain == d then {step.sequence} else {})
  {
    match step
    case Dispatch(n) =>
      StartedNext(s.log, n, d, Started);
      StartedNext(s.log, n, d, Acknowledged);
    case Acknowledge(e, n) =>
      RecordedNext(s.log, Note(e, Acknowledged, n), d, Started);
      RecordedNext(s.log, Note(e, Acknowledged, n), d, Acknowledged);
    case Fail(e, n) =>
      RecordedNext(s.log, Note(e, Failed, n), d, Started);
      RecordedNext(s.log, Note(e, Failed, n), d, Acknowledged);
    case _ =>
  }

  // ---------- there are such runs ----------

  lemma RunOn(steps: seq<Step>, step: Step) returns (longer: seq<Step>)
    requires Run(steps).Some? && Enabled(Run(steps).value, step)
    ensures longer == steps + [step] && Run(longer) == Some(Next(Run(steps).value, step))
  {
    longer := steps + [step];
    assert longer[..|steps|] == steps;
  }

  ghost predicate AllHonest(steps: seq<Step>) {
    forall i :: 0 <= i < |steps| ==> Honest(steps[i])
  }

  /** A write that is stored and acknowledged. */
  lemma Written(steps: seq<Step>, d: Domain, n: nat) returns (longer: seq<Step>)
    requires Run(steps).Some? && AllHonest(steps)
    requires var s := Run(steps).value; n in s.dispatched && (d, n) in s.pending && (d, n) !in s.store
    ensures AllHonest(longer)
    ensures var s := Run(steps).value;
            Run(longer) == Some(State(s.log + [Note(d, Acknowledged, n)], s.dispatched, s.pending - {(d, n)},
                                      s.store + multiset{(d, n)}))
  {
    longer := RunOn(steps, Persist(d, n));
    longer := RunOn(longer, Acknowledge(d, n));
  }

  ghost predicate Awaits(s: State, ds: seq<Domain>, n: nat) {
    && Distinct(ds) && n in s.dispatched
    && forall i :: 0 <= i < |ds| ==> (ds[i], n) in s.pending && (ds[i], n) !in s.store
  }

  ghost predicate HasWritten(s: State, d: Domain, n: nat) {
    Note(d, Acknowledged, n) in s.log && (d, n) in s.store
  }

  /** Writes of one sequence, domain after domain. */
  lemma {:induction false} AllWritten(steps: seq<Step>, ds: seq<Domain>, n: nat) returns (longer: seq<Step>)
    requires Run(steps).Some? && AllHonest(steps) && Awaits(Run(steps).value, ds, n)
    ensures AllHonest(longer) && Run(longer).Some? && Run(longer).value.dispatched == Run(steps).value.dispatched
    ensures forall d: Domain :: HasWritten(Run(steps).value, d, n) || d in ds ==> HasWritten(Run(longer).value, d, n)
    decreases |ds|
  {
    longer := steps;
    if ds != [] {
      var d, rest := ds[0], ds[1..];
      assert forall i :: 0 <= i < |rest| ==> rest[i] == ds[i + 1];
      longer := Written(steps, d, n);
      var s, t := Run(steps).value, Run(longer).value;
      WrittenStays(s, t, d, n);
      longer := AllWritten(longer, rest, n);
      assert forall e :: e in ds ==> e == d || e in rest;
    }
  }

  lemma WrittenStays(s: State, t: State, d: Domain, n: nat)
    requires t.log == s.log + [Note(d, Acknowledged, n)] && t.store == s.store + multiset{(d, n)}
    ensures HasWritten(t, d, n) && forall e: Domain :: HasWritten(s, e, n) ==> HasWritten(t, e, n)
  {
    assert t.log[|s.log|] == Note(d, Acknowledged, n);
  }

  lemma Baseline() returns (steps: seq<Step>)
    ensures AllHonest(steps) && Run(steps).Some? && Run(steps).value.dispatched == {0}
    ensures forall d: Domain :: HasWritten(Run(steps).value, d, 0)
  {
    steps := RunOn([], Dispatch(0));
    steps := AllWritten(steps, Domains(), 0);
    forall d: Domain ensures HasWritten(Run(steps).value, d, 0) {
      EveryDomain(d);
    }
  }

  /** For every number of cuts there is an honest run that is complete and holds its baseline. */
  lemma {:induction false} CompleteRunExists(iterations: nat) returns (steps: seq<Step>)
    ensures AllHonest(steps) && Run(steps).Some? && Complete(Run(steps).value, iterations)
    ensures forall d: Domain :: HasWritten(Run(steps).value, d, 0)
  {
    if iterations == 0 {
      steps := Baseline();
    } else {
      var before := CompleteRunExists(iterations - 1);
      steps := RunOn(before, Dispatch(iterations));
      DispatchedStays(Run(before).value, iterations);
    }
    forall d: Domain ensures 0 in Recorded(Run(steps).value.log, d, Acknowledged) {
      assert HasWritten(Run(steps).value, d, 0);
    }
  }

  lemma DispatchedStays(s: State, n: nat)
    requires Enabled(s, Dispatch(n))
    ensures forall d: Domain :: HasWritten(s, d, 0) ==> HasWritten(Next(s, Dispatch(n)), d, 0)
  {
  }

  lemma StepKeepsLog(s: State, step: Step)
    requires LogInv(s) && Enabled(s, step)
    ensures LogInv(Next(s, step))
  {
    forall d: Domain
      ensures Recorded(Next(s, step).log, d, Started)
           == Recorded(s.log, d, Started) + (if step.Dispatch? then {step.sequence} else {})
      ensures Recorded(Next(s, step).log, d, Acknowledged)
           == Recorded(s.log, d, Acknowledged)
              + (if step.Acknowledge? && step.domain == d then {step.sequence} else {})
    {
      LogNext(s, step, d);
    }
  }

  lemma StepKeepsKeys(s: State, step: Step)
    requires KeysOnce(s) && Enabled(s, step)
    ensures KeysOnce(Next(s, step))
  {
  }

  lemma StepKeepsStore(s: State, step: Step)
    requires StoreInv(s) && Enabled(s, step) && Honest(step)
    ensures StoreInv(Next(s, step))
  {
    var t := Next(s, step);
    forall d: Domain, n: nat | n in Recorded(t.log, d, Acknowledged) ensures (d, n) in t.store {
      LogNext(s, step, d);
    }
  }

  lemma {:induction false} RunKeeps(steps: seq<Step>)
    requires Run(steps).Some?
    ensures LogInv(Run(steps).value) && KeysOnce(Run(steps).value)
    ensures (forall i :: 0 <= i < |steps| ==> Honest(steps[i])) ==> StoreInv(Run(steps).value)
  {
    if steps != [] {
      var front, last := steps[..|steps| - 1], steps[|steps| - 1];
      RunKeeps(front);
      StepKeepsLog(Run(front).value, last);
      StepKeepsKeys(Run(front).value, last);
      if forall i :: 0 <= i < |steps| ==> Honest(steps[i]) {
        StepKeepsStore(Run(front).value, last);
      }
    }
  }

  // ---------- which runs pass ----------

  /** The baseline and all planned cuts were dispatched, nothing else, and the baseline was acknowledged. */
  ghost predicate Complete(s: State, iterations: nat) {
    && (forall n: nat :: n in s.dispatched <==> n <= iterations)
    && forall d: Domain :: 0 in Recorded(s.log, d, Acknowledged)
  }

  /** The records of a stream: offsets from zero, one for each stored copy. */
  function Numbered(count: nat): seq<(nat, bool)> {
    seq(count, i => (i, true))
  }

  ghost predicate Rearranges(items: seq<Option<nat>>, s: State, d: Domain) {
    None !in items && forall n: nat :: multiset(items)[Some(n)] == s.store[(d, n)]
  }

  /** The broker's answers show the verifier what it holds, in whatever order and batches. */
  ghost predicate Shows(a: Answers, s: State) {
    && Ends(a.queue) && Rearranges(Polled(a.queue), s, Queue)
    && (forall n: nat :: n in a.kv <==> (Kv, n) in s.store)
    && (forall n :: n in a.kv ==> a.kv[n])
    && (forall n: nat :: StreamRecords(a, n) == Numbered(s.store[(Stream, n)]))
    && Rearranges(Routes(Flatten(a.schedule)), s, Schedule)
    && forall i :: 0 <= i < |Flatten(a.schedule)| ==> Flatten(a.schedule)[i].1
  }

  /**
   * What the scenario can vouch for: everything acknowledged is there, nothing of the run is there
   * twice, and neither the queue nor the schedule holds anything the run did not write. Keys and
   * streams it did not write are never read.
   */
  ghost predicate Sound(s: State, iterations: nat) {
    forall d: Domain :: SoundIn(s, iterations, d)
  }

  ghost predicate SoundIn(s: State, iterations: nat, d: Domain) {
    && AcknowledgedKept(s, d)
    && StoredOnce(s, iterations, d)
    && (d.Queue? || d.Schedule? ==> NoStrays(s, iterations, d))
  }

  ghost predicate AcknowledgedKept(s: State, d: Domain) {
    forall n: nat :: n in Recorded(s.log, d, Acknowledged) ==> (d, n) in s.store
  }

  ghost predicate StoredOnce(s: State, iterations: nat, d: Domain) {
    forall n: nat :: n <= iterations ==> s.store[(d, n)] <= 1
  }

  ghost predicate NoStrays(s: State, iterations: nat, d: Domain) {
    forall n: nat :: (d, n) in s.store ==> n <= iterations
  }

  lemma {:induction false} Listing(store: multiset<(Domain, nat)>, d: Domain) returns (items: seq<Option<nat>>)
    ensures None !in items && forall n: nat :: multiset(items)[Some(n)] == store[(d, n)]
    decreases |store|
  {
    if store == multiset{} {
      items := [];
    } else {
      var w :| w in store;
      items := Listing(store - multiset{w}, d);
      if w.0 == d {
        items := items + [Some(w.1)];
      }
    }
  }

  lemma InBatches(items: seq<Option<nat>>) returns (replies: seq<seq<Option<nat>>>)
    ensures Ends(replies) && Polled(replies) == items
  {
    var last: seq<seq<Option<nat>>> := [[]];
    assert last[0] == [] && Polled(last) == [];
    replies := if items == [] then last else [items] + last;
    assert replies[|replies| - 1] == [];
    assert items != [] ==> replies[1..] == last;
  }

  lemma InOnePage(items: seq<Option<nat>>) returns (pages: seq<seq<(Option<nat>, bool)>>)
    ensures Routes(Flatten(pages)) == items
    ensures forall i :: 0 <= i < |Flatten(pages)| ==> Flatten(pages)[i].1
  {
    var entries := seq(|items|, i requires 0 <= i < |items| => (items[i], true));
    pages := [entries];
    assert Flatten(pages[1..]) == [] && Flatten(pages) == entries;
  }

  lemma OneBatch(a: Answers, n: nat, records: seq<(nat, bool)>)
    requires n in a.streams && a.streams[n] == [records]
    ensures StreamRecords(a, n) == records
  {
    assert Flatten([records][1..]) == [];
  }

  /** Every store whose keys have one value each can be shown. */
  lemma SomethingShows(s: State) returns (a: Answers)
    requires KeysOnce(s)
    ensures Shows(a, s)
  {
    var queue := Listing(s.store, Queue);
    var schedule := Listing(s.store, Schedule);
    var replies := InBatches(queue);
    var pages := InOnePage(schedule);
    var keys := set w <- s.store | w.0 == Kv :: w.1;
    var streams := set w <- s.store | w.0 == Stream :: w.1;
    a := Answers(replies, map n | n in keys :: true, map n | n in streams :: [Numbered(s.store[(Stream, n)])], pages);
    forall n: nat ensures StreamRecords(a, n) == Numbered(s.store[(Stream, n)]) {
      if (Stream, n) in s.store {
        OneBatch(a, n, Numbered(s.store[(Stream, n)]));
      }
    }
  }

  lemma FoundIsStored(s: State, a: Answers, d: Domain, n: nat)
    requires Shows(a, s) && KeysOnce(s)
    ensures Found(a, d, n) == s.store[(d, n)]
  {
    match d
    case Queue =>
    case Kv => assert s.store[(Kv, n)] <= 1;
    case Stream => assert StreamRecords(a, n) == Numbered(s.store[(Stream, n)]);
    case Schedule =>
  }

  lemma KnownIff(items: seq<Option<nat>>, s: State, iterations: nat, d: Domain)
    requires Rearranges(items, s, d)
    ensures Known(items, iterations) <==> NoStrays(s, iterations, d)
  {
    if Known(items, iterations) {
      forall n: nat | (d, n) in s.store ensures n <= iterations {
        assert multiset(items)[Some(n)] > 0;
        assert Some(n) in items;
      }
    }
    if NoStrays(s, iterations, d) {
      forall i | 0 <= i < |items| ensures items[i].Some? && items[i].value <= iterations {
        assert items[i] in items && items[i] in multiset(items);
        assert items[i].Some?;
        assert s.store[(d, items[i].value)] > 0;
      }
    }
  }

  lemma ReadsThroughIff(s: State, a: Answers, iterations: nat)
    requires Shows(a, s)
    ensures ReadsThrough(a, iterations) <==>
              && NoStrays(s, iterations, Queue) && NoStrays(s, iterations, Schedule)
              && StoredOnce(s, iterations, Stream)
  {
    KnownIff(Polled(a.queue), s, iterations, Queue);
    KnownIff(Routes(Flatten(a.schedule)), s, iterations, Schedule);
    forall n: nat ensures AllFirst(StreamRecords(a, n)) <==> s.store[(Stream, n)] <= 1 {
      var count := s.store[(Stream, n)];
      assert StreamRecords(a, n) == Numbered(count);
      assert count >= 2 ==> Numbered(count)[1] == (1, true);
    }
  }

  lemma SeenIsStored(s: State, a: Answers, iterations: nat, d: Domain)
    requires KeysOnce(s) && Shows(a, s)
    ensures FoundOnce(a, d, iterations) <==> StoredOnce(s, iterations, d)
    ensures Seen(a, d, iterations) == Stored(s, iterations, d)
  {
    forall n: nat ensures Found(a, d, n) == s.store[(d, n)] {
      FoundIsStored(s, a, d, n);
    }
  }

  /** The sequences of the run that the broker holds. */
  function Stored(s: State, iterations: nat, d: Domain): set<int> {
    set w | w in s.store && w.0 == d && w.1 <= iterations :: w.1
  }

  lemma AgreeIff(s: State, iterations: nat, d: Domain)
    requires LogInv(s) && Complete(s, iterations)
    ensures RecordsAgree(s.log, Stored(s, iterations, d), iterations, d) <==> AcknowledgedKept(s, d)
  {
    var acknowledged, stored := Recorded(s.log, d, Acknowledged), Stored(s, iterations, d);
    if AcknowledgedKept(s, d) {
      forall n: int | n in acknowledged ensures n in stored {
        assert n >= 0 && (n as nat) in s.dispatched;
      }
    }
    if acknowledged <= stored {
      forall n: nat | n in acknowledged ensures (d, n) in s.store {
        assert (n as int) in stored;
      }
    }
  }

  lemma SameLog(left: seq<Record>, right: seq<Record>, seen: set<int>, iterations: nat, d: Domain)
    requires ToSet(left) == ToSet(right)
    ensures RecordsAgree(left, seen, iterations, d) <==> RecordsAgree(right, seen, iterations, d)
  {
    SameRecorded(left, right, d, Started);
    SameRecorded(left, right, d, Acknowledged);
  }

  lemma PassesInIff(s: State, records: seq<Record>, a: Answers, iterations: nat, d: Domain)
    requires LogInv(s) && KeysOnce(s) && Complete(s, iterations) && Shows(a, s) && ToSet(records) == ToSet(s.log)
    ensures PassesIn(records, a, iterations, d) <==> AcknowledgedKept(s, d) && StoredOnce(s, iterations, d)
  {
    SeenIsStored(s, a, iterations, d);
    SameLog(records, s.log, Seen(a, d, iterations), iterations, d);
    AgreeIff(s, iterations, d);
  }

  lemma PassesIff(s: State, records: seq<Record>, a: Answers, iterations: nat)
    requires AllReadable(records)
    requires forall d: Domain ::
               PassesIn(records, a, iterations, d) <==> AcknowledgedKept(s, d) && StoredOnce(s, iterations, d)
    requires ReadsThrough(a, iterations) <==>
               && NoStrays(s, iterations, Queue) && NoStrays(s, iterations, Schedule) && StoredOnce(s, iterations, Stream)
    ensures RunPasses(records, a, iterations) <==> Sound(s, iterations)
  {
    if Sound(s, iterations) {
      assert SoundIn(s, iterations, Queue) && SoundIn(s, iterations, Schedule) && SoundIn(s, iterations, Stream);
      forall d: Domain ensures PassesIn(records, a, iterations, d) {
        assert SoundIn(s, iterations, d);
      }
    }
    if RunPasses(records, a, iterations) {
      forall d: Domain ensures SoundIn(s, iterations, d) {
        assert PassesIn(records, a, iterations, d);
      }
    }
  }

  /** However its records are spread over logs, a complete run passes exactly when the store is sound. */
  lemma CompleteRunPassesIff(steps: seq<Step>, records: seq<Record>, a: Answers, iterations: nat)
    requires Run(steps).Some? && Complete(Run(steps).value, iterations)
    requires ToSet(records) == ToSet(Run(steps).value.log) && Shows(a, Run(steps).value)
    ensures RunPasses(records, a, iterations) <==> Sound(Run(steps).value, iterations)
  {
    var s := Run(steps).value;
    RunKeeps(steps);
    forall i | 0 <= i < |records| ensures Readable(records[i]) {
      assert records[i] in ToSet(s.log);
    }
    forall d: Domain
      ensures PassesIn(records, a, iterations, d) <==> AcknowledgedKept(s, d) && StoredOnce(s, iterations, d)
    {
      PassesInIff(s, records, a, iterations, d);
    }
    ReadsThroughIff(s, a, iterations);
    PassesIff(s, records, a, iterations);
  }

  /** A run that passes had nothing unexpected to read: no wrong body, offset, payload or route. */
  lemma PassedRunReadTrue(records: seq<Record>, a: Answers, iterations: nat)
    requires RunPasses(records, a, iterations)
    ensures exists k :: 0 <= k < |a.queue| && a.queue[k] == []
    ensures forall x :: x in Polled(a.queue) ==> x.Some? && x.value <= iterations
    ensures forall n :: n in a.kv && n <= iterations ==> a.kv[n]
    ensures forall n: nat, i :: n <= iterations && 0 <= i < |StreamRecords(a, n)| ==>
              StreamRecords(a, n)[i].0 == 0 && StreamRecords(a, n)[i].1
    ensures forall i :: 0 <= i < |Flatten(a.schedule)| ==>
              var (sequence, expected) := Flatten(a.schedule)[i];
              expected && sequence.Some? && sequence.value <= iterations
  {
    forall n: nat, i | n <= iterations && 0 <= i < |StreamRecords(a, n)|
      ensures StreamRecords(a, n)[i].0 == 0 && StreamRecords(a, n)[i].1
    {
      assert AllFirst(StreamRecords(a, n));
    }
    forall i | 0 <= i < |Flatten(a.schedule)|
      ensures Flatten(a.schedule)[i].0.Some? && Flatten(a.schedule)[i].0.value <= iterations
    {
      assert Routes(Flatten(a.schedule))[i] == Flatten(a.schedule)[i].0;
    }
  }

  /** Every complete run of an honest broker passes, wherever the crashes cut it. */
  lemma HonestRunPasses(steps: seq<Step>, records: seq<Record>, a: Answers, iterations: nat)
    requires Run(steps).Some? && (forall i :: 0 <= i < |steps| ==> Honest(steps[i]))
    requires Complete(Run(steps).value, iterations)
    requires ToSet(records) == ToSet(Run(steps).value.log) && Shows(a, Run(steps).value)
    ensures RunPasses(records, a, iterations)
  {
    var s := Run(steps).value;
    RunKeeps(steps);
    forall d: Domain ensures SoundIn(s, iterations, d) {
      forall n: nat ensures s.store[(d, n)] <= 1 {
        assert (d, n) !in s.store ==> s.store[(d, n)] == 0;
      }
    }
    CompleteRunPassesIff(steps, records, a, iterations);
  }

  lemma SoundWithStray(s: State, iterations: nat, d: Domain, n: nat)
    requires StoreInv(s) && Complete(s, iterations) && n > iterations && (d == Kv || d == Stream)
    ensures Enabled(s, Conjure(d, n)) && Sound(Next(s, Conjure(d, n)), iterations)
    ensures Complete(Next(s, Conjure(d, n)), iterations)
  {
    assert n !in s.dispatched && (d, n) !in s.store;
    var t := Next(s, Conjure(d, n));
    forall e: Domain ensures SoundIn(t, iterations, e) {
      forall m: nat | m <= iterations ensures t.store[(e, m)] <= 1 {
        assert (e, m) !in s.store ==> s.store[(e, m)] == 0;
      }
    }
  }

  /** A key or a stream that nobody wrote, beyond those of the run, goes unnoticed: the run still passes. */
  lemma StrayUnseen(steps: seq<Step>, records: seq<Record>, a: Answers, iterations: nat, d: Domain, n: nat)
    requires Run(steps).Some? && (forall i :: 0 <= i < |steps| ==> Honest(steps[i]))
    requires Complete(Run(steps).value, iterations) && n > iterations && (d == Kv || d == Stream)
    ensures Run(steps + [Conjure(d, n)]).Some?
    ensures var s := Run(steps + [Conjure(d, n)]).value;
            && (d, n) in s.store && n !in s.dispatched && (exists a: Answers :: Shows(a, s))
            && (ToSet(records) == ToSet(s.log) && Shows(a, s) ==> RunPasses(records, a, iterations))
  {
    RunKeeps(steps);
    assert (steps + [Conjure(d, n)])[..|steps|] == steps;
    var t := Run(steps + [Conjure(d, n)]).value;
    SoundWithStray(Run(steps).value, iterations, d, n);
    RunKeeps(steps + [Conjure(d, n)]);
    var shown := SomethingShows(t);
    if ToSet(records) == ToSet(t.log) && Shows(a, t) {
      CompleteRunPassesIff(steps + [Conjure(d, n)], records, a, iterations);
    }
  }
}
