/**
 * From the workers' events to the report: what the numbers of a stage and of a domain are
 * (`observeStage` in src/worker.ts, src/orchestration/pressure.ts, src/operational-guidance.ts).
 */
module PressureReport {
  import opened Wrappers
  import opened Sequences
  import opened Latency
  import opened Percentile
  import opened StageEvidence
  import opened PressureGuidance

  // ---------- the workers ----------

  /** What one client observed of one stage. */
  datatype Work = Work(name: string, durable: bool, events: seq<Event>)

  predicate Possible(w: Work) {
    Run(w.durable, w.events).Some?
  }

  predicate AllPossible(works: seq<Work>) {
    forall i :: 0 <= i < |works| ==> Possible(works[i])
  }

  lemma RecordShaped(w: Work)
    requires Possible(w)
    ensures |Run(w.durable, w.events).value.stage.latency.buckets| == BUCKETS
    ensures Balanced(Run(w.durable, w.events).value.stage)
  {
    ObservationRecords(w.durable, w.events);
    ObservedIsBalanced(w.durable, w.events);
  }

  /** The record the client logs of it. */
  function RecordOf(w: Work): StageRecord
    requires Possible(w)
  {
    RecordShaped(w);
    Run(w.durable, w.events).value.stage
  }

  function EvidenceOf(works: seq<Work>): seq<(string, StageRecord)>
    requires AllPossible(works)
  {
    if works == [] then []
    else
      var last := works[|works| - 1];
      assert Possible(last);
      EvidenceOf(works[..|works| - 1]) + [(last.name, RecordOf(last))]
  }

  // ---------- counting events ----------

  /** How many events of a kind the works of one name hold. */
  function CountNamed(works: seq<Work>, name: string, k: Kind): nat {
    if works == [] then 0
    else
      var last := works[|works| - 1];
      CountNamed(works[..|works| - 1], name, k) + if last.name == name then Count(k, last.durable, last.events) else 0
  }

  /** How many there are in all. */
  function CountEvery(works: seq<Work>, k: Kind): nat {
    if works == [] then 0
    else CountEvery(works[..|works| - 1], k) + Count(k, works[|works| - 1].durable, works[|works| - 1].events)
  }

  /** The latencies of the operations of one name that ended. */
  function SamplesNamed(works: seq<Work>, name: string): seq<real> {
    if works == [] then []
    else
      var front, last := SamplesNamed(works[..|works| - 1], name), works[|works| - 1];
      if last.name == name then front + Elapsed(last.events) else front
  }

  // ---------- one stage ----------

  /** A stage of the aggregate counts the events of its name over all clients. */
  ghost predicate CountsNamed(s: Stage, works: seq<Work>, name: string) {
    && s.started == CountNamed(works, name, Begun)
    && s.succeeded == CountNamed(works, name, Ended)
    && s.retryableBackpressure == CountNamed(works, name, Retried)
    && s.failed == CountNamed(works, name, DefiniteError) + CountNamed(works, name, DefiniteAtShutdown)
    && s.ambiguous == CountNamed(works, name, AmbiguousError) + CountNamed(works, name, AmbiguousAtShutdown)
    && s.shutdown.failed == CountNamed(works, name, DefiniteAtShutdown)
    && s.shutdown.ambiguous == CountNamed(works, name, AmbiguousAtShutdown)
  }

  /** The latencies of the ended operations, one by one, in one histogram. */
  ghost predicate RecordsNamed(s: Stage, works: seq<Work>, name: string) {
    s.latency == Recorded(SamplesNamed(works, name))
  }

  lemma MergeCounts(s: StageRecord, w: Work, works: seq<Work>)
    requires Possible(w) && CountsNamed(s, works, w.name)
    ensures CountsNamed(Merge(s, RecordOf(w)), works + [w], w.name)
  {
    CountersCount(w.durable, w.events);
    assert (works + [w])[..|works|] == works;
  }

  lemma MergeRecords(s: StageRecord, w: Work, works: seq<Work>)
    requires Possible(w) && RecordsNamed(s, works, w.name)
    ensures RecordsNamed(Merge(s, RecordOf(w)), works + [w], w.name)
  {
    assert (works + [w])[..|works|] == works;
    ObservationRecords(w.durable, w.events);
    RecordedConsistent(SamplesNamed(works, w.name));
    MergedPair(s.latency, RecordOf(w).latency);
    RecordedConcat(SamplesNamed(works, w.name), Elapsed(w.events));
  }

  lemma OtherName(s: Stage, w: Work, works: seq<Work>, name: string)
    requires CountsNamed(s, works, name) && RecordsNamed(s, works, name) && w.name != name
    ensures CountsNamed(s, works + [w], name) && RecordsNamed(s, works + [w], name)
  {
    assert (works + [w])[..|works|] == works;
  }

  lemma {:induction false} NamedCounts(works: seq<Work>, name: string)
    requires AllPossible(works)
    ensures var s := Fold(Named(EvidenceOf(works), name)); CountsNamed(s, works, name) && RecordsNamed(s, works, name)
  {
    if works != [] {
      var front, last := works[..|works| - 1], works[|works| - 1];
      assert works == front + [last] && Possible(last);
      NamedCounts(front, name);
      NamedNext(works, name);
      var s := Fold(Named(EvidenceOf(front), name));
      if last.name == name {
        MergeCounts(s, last, front);
        MergeRecords(s, last, front);
      } else {
        OtherName(s, last, front, name);
      }
    }
  }

  lemma NamedNext(works: seq<Work>, name: string)
    requires AllPossible(works) && works != []
    ensures var front, last := works[..|works| - 1], works[|works| - 1];
            Possible(last) &&
            Fold(Named(EvidenceOf(works), name))
            == if last.name == name then Merge(Fold(Named(EvidenceOf(front), name)), RecordOf(last))
               else Fold(Named(EvidenceOf(front), name))
  {
    var front, last := works[..|works| - 1], works[|works| - 1];
    assert Possible(last);
    var entries := EvidenceOf(front);
    assert EvidenceOf(works)[..|entries|] == entries;
    var ss := Named(entries, name);
    assert (ss + [RecordOf(last)])[..|ss|] == ss;
  }

  /** What the report says of a stage. */
  function Reported(works: seq<Work>, name: string): StageSummary {
    StageSummary(
      name,
      CountNamed(works, name, Begun),
      CountNamed(works, name, Ended),
      CountNamed(works, name, DefiniteError),
      CountNamed(works, name, AmbiguousError) + CountNamed(works, name, AmbiguousAtShutdown),
      CountNamed(works, name, DefiniteAtShutdown) + CountNamed(works, name, AmbiguousAtShutdown),
      LatencySummary(Recorded(SamplesNamed(works, name))))
  }

  lemma {:induction false} EvidenceBalanced(works: seq<Work>)
    requires AllPossible(works)
    ensures BalancedEntries(EvidenceOf(works))
  {
    if works != [] {
      EvidenceBalanced(works[..|works| - 1]);
      assert Possible(works[|works| - 1]);
      RecordShaped(works[|works| - 1]);
    }
  }

  /**
   * Whatever the clients did: the report's errors of a stage are their definite failures outside
   * shutdown, its expected cancellations their failures during shutdown, its ambiguous outcomes the
   * failures that leave a durable operation in doubt, and its latencies those of all ended operations.
   */
  lemma StageReported(works: seq<Work>, name: string, legacySignals: nat)
    requires AllPossible(works) && name in AddEntries(EvidenceOf(works))
    ensures ParseStage(name, FileOf(AddEntries(EvidenceOf(works))[name], legacySignals)) == Ok(Reported(works, name))
  {
    var entries := EvidenceOf(works);
    AggregateByName(entries, name);
    EvidenceBalanced(works);
    NamedBalanced(entries, name);
    FoldBalanced(Named(entries, name));
    NamedCounts(works, name);
    CountedStage(Fold(Named(entries, name)), works, name, legacySignals);
  }

  /** The report of a stage whose counts agree, in terms of its counters. */
  lemma AgreeingStage(s: StageRecord, name: string, legacySignals: nat)
    requires Cumulative(s.latency, BUCKETS) + s.latency.overflow == s.latency.count
    requires s.shutdown.failed <= s.failed && s.shutdown.ambiguous <= s.ambiguous
    ensures ParseStage(name, FileOf(s, legacySignals))
         == Ok(StageSummary(name, s.started, s.succeeded, s.failed - s.shutdown.failed, s.ambiguous,
                            s.shutdown.failed + s.shutdown.ambiguous, LatencySummary(s.latency)))
  {
  }

  lemma CountedStage(s: StageRecord, works: seq<Work>, name: string, legacySignals: nat)
    requires Balanced(s) && CountsNamed(s, works, name) && RecordsNamed(s, works, name)
    ensures ParseStage(name, FileOf(s, legacySignals)) == Ok(Reported(works, name))
  {
    AgreeingStage(s, name, legacySignals);
    CountedSummary(s, LatencySummary(s.latency), works, name);
  }

  lemma CountedSummary(s: StageRecord, latency: Summary, works: seq<Work>, name: string)
    requires CountsNamed(s, works, name) && latency == LatencySummary(Recorded(SamplesNamed(works, name)))
    ensures StageSummary(name, s.started, s.succeeded, s.failed - s.shutdown.failed, s.ambiguous,
                         s.shutdown.failed + s.shutdown.ambiguous, latency)
         == Reported(works, name)
  {
  }

  // ---------- a domain ----------

  function SumOver(works: seq<Work>, names: seq<string>, k: Kind): nat {
    if names == [] then 0 else CountNamed(works, names[0], k) + SumOver(works, names[1..], k)
  }

  lemma {:induction false} SumOverNext(works: seq<Work>, w: Work, names: seq<string>, k: Kind)
    requires Distinct(names)
    ensures SumOver(works + [w], names, k)
         == SumOver(works, names, k) + if w.name in names then Count(k, w.durable, w.events) else 0
    decreases |names|
  {
    if names != [] {
      var rest := names[1..];
      assert (works + [w])[..|works|] == works;
      assert names == [names[0]] + rest;
      DistinctParts([names[0]], rest);
      SumOverNext(works, w, rest, k);
      assert names[0] !in rest by {
        forall i | 0 <= i < |rest| ensures rest[i] != names[0] { assert names[i + 1] == rest[i]; }
      }
    }
  }

  lemma {:induction false} SumOverNothing(names: seq<string>, k: Kind)
    ensures SumOver([], names, k) == 0
  {
    if names != [] {
      SumOverNothing(names[1..], k);
    }
  }

  /** Stage by stage or all at once: every event belongs to one stage. */
  lemma {:induction false} SumOverIsEvery(works: seq<Work>, names: seq<string>, k: Kind)
    requires Distinct(names) && forall i :: 0 <= i < |works| ==> works[i].name in names
    ensures SumOver(works, names, k) == CountEvery(works, k)
    decreases |works|
  {
    if works == [] {
      SumOverNothing(names, k);
    } else {
      var front, last := works[..|works| - 1], works[|works| - 1];
      assert works == front + [last];
      forall i | 0 <= i < |front| ensures front[i].name in names { assert works[i].name in names; }
      SumOverIsEvery(front, names, k);
      SumOverNext(front, last, names, k);
    }
  }

  function Stages(works: seq<Work>, names: seq<string>): (ss: seq<StageSummary>)
    ensures |ss| == |names| && forall i :: 0 <= i < |ss| ==> ss[i] == Reported(works, names[i])
  {
    seq(|names|, i requires 0 <= i < |names| => Reported(works, names[i]))
  }

  lemma {:induction false} StagesTotal(works: seq<Work>, names: seq<string>)
    ensures var ss := Stages(works, names);
            && PressureGuidance.Total(ss, Errors) == SumOver(works, names, DefiniteError)
            && PressureGuidance.Total(ss, AmbiguousOutcomes)
               == SumOver(works, names, AmbiguousError) + SumOver(works, names, AmbiguousAtShutdown)
            && PressureGuidance.Total(ss, ExpectedCancellations)
               == SumOver(works, names, DefiniteAtShutdown) + SumOver(works, names, AmbiguousAtShutdown)
    decreases |names|
  {
    if names != [] {
      assert Stages(works, names)[1..] == Stages(works, names[1..]);
      StagesTotal(works, names[1..]);
    }
  }

  lemma StagesParse(works: seq<Work>, names: seq<string>, stages: map<string, StageRecord>)
    requires AllPossible(works) && stages == AddEntries(EvidenceOf(works))
    requires forall i :: 0 <= i < |names| ==> names[i] in stages
    ensures ParseStages(PressureGuidance.Listed(stages, names)) == Ok(Stages(works, names))
  {
    var files, ss := PressureGuidance.Listed(stages, names), Stages(works, names);
    forall i | 0 <= i < |files| ensures ParseStage(files[i].0, files[i].1) == Ok(ss[i]) {
      StageReported(works, names[i], 0);
    }
    ParseEach(files, ss);
  }

  lemma {:induction false} ParseEach(files: seq<(string, StageFile)>, ss: seq<StageSummary>)
    requires |ss| == |files| && forall i :: 0 <= i < |files| ==> ParseStage(files[i].0, files[i].1) == Ok(ss[i])
    ensures ParseStages(files) == Ok(ss)
    decreases |files|
  {
    if files != [] {
      forall i | 0 <= i < |files[1..]| ensures ParseStage(files[1..][i].0, files[1..][i].1) == Ok(ss[1..][i]) {
        assert files[1..][i] == files[i + 1] && ss[1..][i] == ss[i + 1];
      }
      ParseEach(files[1..], ss[1..]);
      ParseCons(files, ss[0], ss[1..]);
      assert ss == [ss[0]] + ss[1..];
    }
  }

  lemma ParseCons(files: seq<(string, StageFile)>, first: StageSummary, rest: seq<StageSummary>)
    requires files != [] && ParseStage(files[0].0, files[0].1) == Ok(first) && ParseStages(files[1..]) == Ok(rest)
    ensures ParseStages(files) == Ok([first] + rest)
  {
  }

  lemma {:induction false} EvidenceNames(works: seq<Work>, i: nat)
    requires AllPossible(works) && i < |works|
    ensures works[i].name in AddEntries(EvidenceOf(works))
  {
    var front, last := works[..|works| - 1], works[|works| - 1];
    assert Possible(last);
    assert EvidenceOf(works)[..|EvidenceOf(front)|] == EvidenceOf(front);
    if i < |front| {
      EvidenceNames(front, i);
      assert works[i] == front[i];
    }
  }

  function SumAll(counts: seq<nat>): nat {
    if counts == [] then 0 else counts[0] + SumAll(counts[1..])
  }

  lemma {:induction false} SumAllConcat(a: seq<nat>, b: seq<nat>)
    ensures SumAll(a + b) == SumAll(a) + SumAll(b)
  {
    if a == [] {
      assert a + b == b;
    } else {
      assert (a + b)[1..] == a[1..] + b;
      SumAllConcat(a[1..], b);
    }
  }

  lemma SumAllNext(counts: seq<nat>, front: seq<nat>)
    requires counts != [] && front == counts[..|counts| - 1]
    ensures SumAll(counts) == SumAll(front) + counts[|counts| - 1]
  {
    var last := [counts[|counts| - 1]];
    assert counts == front + last;
    SumAllConcat(front, last);
    assert SumAll(last) == last[0];
  }

  /** What the clients say of their operations in a domain. */
  function Successes(clients: seq<ClientEvidence>, d: Domain): (r: seq<nat>)
    ensures |r| == |clients|
    ensures forall i :: 0 <= i < |r| ==> r[i] == if d in clients[i] then clients[i][d].succeeded else 0
  {
    seq(|clients|, i requires 0 <= i < |clients| => if d in clients[i] then clients[i][d].succeeded else 0)
  }

  function Failures(clients: seq<ClientEvidence>, d: Domain): (r: seq<nat>)
    ensures |r| == |clients|
    ensures forall i :: 0 <= i < |r| ==> r[i] == if d in clients[i] then clients[i][d].failed else 0
  {
    seq(|clients|, i requires 0 <= i < |clients| => if d in clients[i] then clients[i][d].failed else 0)
  }

  /** The aggregate adds up the clients' successes and, apart from them, their failures. */
  lemma {:induction false} AggregateCounts(clients: seq<ClientEvidence>, d: Domain)
    ensures AggregateOf(clients, d).succeeded == SumAll(Successes(clients, d))
    ensures AggregateOf(clients, d).failed == SumAll(Failures(clients, d))
    decreases |clients|
  {
    if clients != [] {
      var n := |clients| - 1;
      var front := clients[..n];
      AggregateCounts(front, d);
      SumAllNext(Successes(clients, d), Successes(front, d));
      SumAllNext(Failures(clients, d), Failures(front, d));
    }
  }

  /** A stage that no stage exceeds in p95, and the first of these. */
  ghost predicate IsSlowest(report: DomainSummary, k: nat) {
    && k < |report.stages| && report.slowestStage == report.stages[k].stage
    && (forall i :: 0 <= i < |report.stages| ==> report.stages[i].latency.p95Ms <= report.stages[k].latency.p95Ms)
    && forall i :: 0 <= i < k ==> report.stages[i].latency.p95Ms < report.stages[k].latency.p95Ms
  }

  /** Whatever the files hold, an accepted report names its slowest stage and adds up its own stages. */
  lemma ReportAddsUp(files: seq<(string, StageFile)>, succeeded: nat, durationMs: nat)
    requires ParsePressureDomain(files, succeeded, durationMs).Ok?
    ensures var r := ParsePressureDomain(files, succeeded, durationMs).value;
            && Ok(r.stages) == ParseStages(files)
            && r.completedOperations == succeeded
            && r.operationsPerSecond == Round(1000.0 * succeeded as real / durationMs as real)
            && r.errors == PressureGuidance.Total(r.stages, Errors)
            && r.ambiguousOutcomes == PressureGuidance.Total(r.stages, AmbiguousOutcomes)
            && r.expectedCancellations == PressureGuidance.Total(r.stages, ExpectedCancellations)
            && exists k :: IsSlowest(r, k)
  {
    var r := ParsePressureDomain(files, succeeded, durationMs).value;
    assert IsSlowest(r, Slowest(r.stages));
    PerSecond(succeeded as real, durationMs as real);
  }

  lemma PerSecond(x: real, ms: real)
    requires ms > 0.0
    ensures x / (ms / 1000.0) == 1000.0 * x / ms
  {
    var q := x / (ms / 1000.0);
    assert q * (ms / 1000.0) == x;
    assert q * ms == 1000.0 * x;
  }

  /** Each client that knows the domain logs what it observed there; the others observed nothing. */
  ghost predicate LogsWork(clients: seq<ClientEvidence>, d: Domain, worked: seq<seq<Work>>) {
    && |worked| == |clients|
    && forall i :: 0 <= i < |clients| ==>
         AllPossible(worked[i]) && if d in clients[i] then clients[i][d].stages == EvidenceOf(worked[i]) else worked[i] == []
  }

  lemma {:induction false} EvidenceConcat(a: seq<Work>, b: seq<Work>)
    requires AllPossible(a) && AllPossible(b)
    ensures AllPossible(a + b) && EvidenceOf(a + b) == EvidenceOf(a) + EvidenceOf(b)
    decreases |b|
  {
    if b == [] {
      assert a + b == a;
    } else {
      var front := b[..|b| - 1];
      assert (a + b)[..|a + b| - 1] == a + front;
      EvidenceConcat(a, front);
    }
  }

  /** The aggregation goes over the work of every client, in client order. */
  lemma {:induction false} LoggedEntries(clients: seq<ClientEvidence>, d: Domain, worked: seq<seq<Work>>)
    requires LogsWork(clients, d, worked)
    ensures AllPossible(Flatten(worked)) && Entries(clients, d) == EvidenceOf(Flatten(worked))
    decreases |clients|
  {
    if clients != [] {
      var n := |clients| - 1;
      LoggedEntries(clients[..n], d, worked[..n]);
      FlattenLast(worked);
      assert AllPossible(worked[n]);
      EvidenceConcat(Flatten(worked[..n]), worked[n]);
    }
  }

  /**
   * From the workers' events to the report of a domain: its stages are as reported above, its errors,
   * ambiguous outcomes and expected cancellations count the events of all clients and stages, and its
   * completed operations are the clients' own successes.
   */
  lemma DomainReported(clients: seq<ClientEvidence>, d: Domain, worked: seq<seq<Work>>, names: seq<string>, durationMs: nat)
    requires LogsWork(clients, d, worked)
    requires Distinct(names) && forall name :: name in names <==> name in AggregateOf(clients, d).stages
    requires Flatten(worked) != [] && durationMs > 0
    ensures var a, works := AggregateOf(clients, d), Flatten(worked);
            var parsed := ParsePressureDomain(PressureGuidance.Listed(a.stages, names), a.succeeded, durationMs);
            && parsed.Ok?
            && var r := parsed.value;
            && r.stages == Stages(works, names)
            && r.errors == CountEvery(works, DefiniteError)
            && r.ambiguousOutcomes == CountEvery(works, AmbiguousError) + CountEvery(works, AmbiguousAtShutdown)
            && r.expectedCancellations == CountEvery(works, DefiniteAtShutdown) + CountEvery(works, AmbiguousAtShutdown)
            && r.completedOperations == SumAll(Successes(clients, d))
  {
    var a, works := AggregateOf(clients, d), Flatten(worked);
    var files := PressureGuidance.Listed(a.stages, names);
    LoggedEntries(clients, d, worked);
    StagesParse(works, names, a.stages);
    WorksListed(works, names);
    AggregateCounts(clients, d);
    ReportParses(files, Stages(works, names), a.succeeded, durationMs);
    ReportAddsUp(files, a.succeeded, durationMs);
    StagesCount(works, names);
  }

  lemma WorksListed(works: seq<Work>, names: seq<string>)
    requires AllPossible(works) && forall name :: name in AddEntries(EvidenceOf(works)) ==> name in names
    ensures forall i :: 0 <= i < |works| ==> works[i].name in names
  {
    forall i | 0 <= i < |works| ensures works[i].name in names { EvidenceNames(works, i); }
  }

  lemma ReportParses(files: seq<(string, StageFile)>, ss: seq<StageSummary>, succeeded: nat, durationMs: nat)
    requires ParseStages(files) == Ok(ss) && ss != [] && durationMs > 0
    ensures ParsePressureDomain(files, succeeded, durationMs).Ok?
  {
  }

  lemma StagesCount(works: seq<Work>, names: seq<string>)
    requires Distinct(names) && forall i :: 0 <= i < |works| ==> works[i].name in names
    ensures var ss := Stages(works, names);
            && PressureGuidance.Total(ss, Errors) == CountEvery(works, DefiniteError)
            && PressureGuidance.Total(ss, AmbiguousOutcomes)
               == CountEvery(works, AmbiguousError) + CountEvery(works, AmbiguousAtShutdown)
            && PressureGuidance.Total(ss, ExpectedCancellations)
               == CountEvery(works, DefiniteAtShutdown) + CountEvery(works, AmbiguousAtShutdown)
  {
    StagesTotal(works, names);
    forall k: Kind ensures SumOver(works, names, k) == CountEvery(works, k) { SumOverIsEvery(works, names, k); }
  }

  // ---------- files of older versions ----------

  /**
   * Files written before the shutdown share was recorded: as many outcomes as were cancelled, by class
   * or by signal, are taken off the ambiguous ones first; what is left over is taken off the failures,
   * and errors are what then remains.
   */
  lemma LegacyStage(name: string, file: StageFile)
    requires file.shutdown.None?
    requires Cumulative(file.stage.latency, BUCKETS) + file.stage.latency.overflow == file.stage.latency.count
    ensures ParseStage(name, file).Ok?
    ensures var s, r := file.stage, ParseStage(name, file).value;
            var cancelled := ClassCount(s.errorClasses, Cancelled) + file.legacySignals;
            && r.ambiguousOutcomes == s.ambiguous
            && (cancelled <= s.ambiguous ==> r.errors == s.failed && r.expectedCancellations == cancelled)
            && (s.ambiguous < cancelled <= s.failed + s.ambiguous ==>
                  r.errors == s.failed + s.ambiguous - cancelled && r.expectedCancellations == cancelled)
            && (s.failed + s.ambiguous < cancelled ==>
                  r.errors == 0 && r.expectedCancellations == s.failed + s.ambiguous)
  {
  }

  /** The error of a domain says what it lacks, or is that of its first stage that does not parse. */
  lemma DomainFails(files: seq<(string, StageFile)>, succeeded: nat, durationMs: nat)
    requires ParsePressureDomain(files, succeeded, durationMs).Err?
    ensures var e := ParsePressureDomain(files, succeeded, durationMs).error;
            if files == [] then e == NoStages
            else if ParseStages(files).Ok? then e == NoRate && durationMs == 0
            else exists k: nat :: FailsFirst(files, k) && ParseStage(files[k].0, files[k].1) == Err(e)
  {
    if ParseStages(files).Err? {
      var k := FirstFailure(files);
    }
  }

  ghost predicate FailsFirst(files: seq<(string, StageFile)>, k: nat) {
    && k < |files| && ParseStage(files[k].0, files[k].1).Err?
    && forall i :: 0 <= i < k ==> ParseStage(files[i].0, files[i].1).Ok?
  }

  lemma {:induction false} FirstFailure(files: seq<(string, StageFile)>) returns (k: nat)
    requires ParseStages(files).Err?
    ensures FailsFirst(files, k) && ParseStage(files[k].0, files[k].1) == Err(ParseStages(files).error)
    decreases |files|
  {
    if ParseStage(files[0].0, files[0].1).Err? {
      k := 0;
    } else {
      k := FirstFailure(files[1..]);
      k := k + 1;
      forall i | 0 <= i < k ensures ParseStage(files[i].0, files[i].1).Ok? {
        assert i > 0 ==> files[i] == files[1..][i - 1];
      }
    }
  }

  /** Any file is accepted exactly when its counts agree and it claims no more cancellations than outcomes. */
  lemma StageParsesIff(name: string, file: StageFile)
    ensures ParseStage(name, file).Ok? <==>
              && Cumulative(file.stage.latency, BUCKETS) + file.stage.latency.overflow == file.stage.latency.count
              && (file.shutdown.Some? ==>
                    file.shutdown.value.failed <= file.stage.failed
                    && file.shutdown.value.ambiguous <= file.stage.ambiguous)
    ensures ParseStage(name, file).Err? ==>
              ParseStage(name, file).error
              == if Cumulative(file.stage.latency, BUCKETS) + file.stage.latency.overflow != file.stage.latency.count
                 then CountMismatch(name) else CancellationsExceedOutcomes(name)
    ensures ParseStage(name, file).Ok? && file.shutdown.Some? ==>
              var r := ParseStage(name, file).value;
              && r.errors + file.shutdown.value.failed == file.stage.failed
              && r.ambiguousOutcomes == file.stage.ambiguous
              && r.expectedCancellations == file.shutdown.value.failed + file.shutdown.value.ambiguous
              && r.latency == LatencySummary(file.stage.latency)
  {
  }
}
