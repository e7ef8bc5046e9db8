/**
 * From the clients' stage evidence to the report: aggregation (src/orchestration/pressure.ts)
 * and the checks and rating of the guidance (src/operational-guidance.ts).
 */
module PressureGuidance {
  import opened Wrappers
  import opened Latency
  import opened Percentile
  import opened StageEvidence

  datatype Domain = Queue | Kv | Stream | Schedule | Notice | Lease | Rpc

  type StageRecord = s: Stage | |s.latency.buckets| == BUCKETS witness EMPTY_STAGE

  /** One client's evidence about a domain; stages in the order of the log record, names distinct. */
  datatype EvidenceDomain = EvidenceDomain(succeeded: nat, failed: nat, stages: seq<(string, StageRecord)>)

  type ClientEvidence = map<Domain, EvidenceDomain>

  datatype Aggregate = Aggregate(succeeded: nat, failed: nat, stages: map<string, StageRecord>)

  // ---------- aggregation ----------

  function Merge(target: StageRecord, source: StageRecord): StageRecord {
    MergeShaped(target, source);
    MergeStage(target, source)
  }

  function AddEntry(stages: map<string, StageRecord>, entry: (string, StageRecord)): map<string, StageRecord> {
    stages[entry.0 := Merge(if entry.0 in stages then stages[entry.0] else EMPTY_STAGE, entry.1)]
  }

  function AddTo(stages: map<string, StageRecord>, entries: seq<(string, StageRecord)>): map<string, StageRecord> {
    if entries == [] then stages else AddEntry(AddTo(stages, entries[..|entries| - 1]), entries[|entries| - 1])
  }

  lemma AddToNext(stages: map<string, StageRecord>, entries: seq<(string, StageRecord)>, i: nat)
    requires i < |entries|
    ensures AddTo(stages, entries[..i + 1]) == AddEntry(AddTo(stages, entries[..i]), entries[i])
  {
    assert entries[..i + 1][..i] == entries[..i];
  }

  function AddEntries(entries: seq<(string, StageRecord)>): map<string, StageRecord> {
    AddTo(map[], entries)
  }

  lemma {:induction false} AddToConcat(
    stages: map<string, StageRecord>, a: seq<(string, StageRecord)>, b: seq<(string, StageRecord)>
  )
    ensures AddTo(AddTo(stages, a), b) == AddTo(stages, a + b)
    decreases |b|
  {
    if b == [] {
      assert a + b == a;
    } else {
      AddToConcat(stages, a, b[..|b| - 1]);
      assert (a + b)[..|a + b| - 1] == a + b[..|b| - 1];
    }
  }

  function EntriesOf(client: ClientEvidence, d: Domain): seq<(string, StageRecord)> {
    if d in client then client[d].stages else []
  }

  /** All stage entries of a domain, client after client. */
  function Entries(clients: seq<ClientEvidence>, d: Domain): seq<(string, StageRecord)> {
    if clients == [] then [] else Entries(clients[..|clients| - 1], d) + EntriesOf(clients[|clients| - 1], d)
  }

  function Succeeded(clients: seq<ClientEvidence>, d: Domain): nat {
    if clients == [] then 0
    else
      var last := clients[|clients| - 1];
      Succeeded(clients[..|clients| - 1], d) + if d in last then last[d].succeeded else 0
  }

  function Failed(clients: seq<ClientEvidence>, d: Domain): nat {
    if clients == [] then 0
    else
      var last := clients[|clients| - 1];
      Failed(clients[..|clients| - 1], d) + if d in last then last[d].failed else 0
  }

  function AggregateOf(clients: seq<ClientEvidence>, d: Domain): Aggregate {
    Aggregate(Succeeded(clients, d), Failed(clients, d), AddEntries(Entries(clients, d)))
  }

  /** The innermost loop: one client's stages are merged into the domain's. */
  method AddClientStages(before: map<string, StageRecord>, entries: seq<(string, StageRecord)>)
    returns (stages: map<string, StageRecord>)
    ensures stages == AddTo(before, entries)
  {
    stages := before;
    for i := 0 to |entries|
      invariant stages == AddTo(before, entries[..i])
    {
      var (name, value) := entries[i];
      var current := if name in stages then stages[name] else EMPTY_STAGE;
      stages := stages[name := Merge(current, value)];
      AddToNext(before, entries, i);
    }
    assert entries[..|entries|] == entries;
  }

  lemma AggregateStep(clients: seq<ClientEvidence>, k: nat, d: Domain)
    requires k < |clients|
    ensures var done, client := clients[..k], clients[k];
            && AddEntries(Entries(clients[..k + 1], d)) == AddTo(AddEntries(Entries(done, d)), EntriesOf(client, d))
            && Succeeded(clients[..k + 1], d) == Succeeded(done, d) + (if d in client then client[d].succeeded else 0)
            && Failed(clients[..k + 1], d) == Failed(done, d) + (if d in client then client[d].failed else 0)
  {
    assert clients[..k + 1][..k] == clients[..k];
    AddToConcat(map[], Entries(clients[..k], d), EntriesOf(clients[k], d));
  }

  method AggregateDomain(clients: seq<ClientEvidence>, d: Domain) returns (r: Aggregate)
    ensures r == AggregateOf(clients, d)
  {
    var stages: map<string, StageRecord> := map[];
    var succeeded, failed := 0, 0;
    for k := 0 to |clients|
      invariant stages == AddEntries(Entries(clients[..k], d))
      invariant succeeded == Succeeded(clients[..k], d) && failed == Failed(clients[..k], d)
    {
      var client := clients[k];
      AggregateStep(clients, k, d);
      if d in client {
        var evidence := client[d];
        succeeded := succeeded + evidence.succeeded;
        failed := failed + evidence.failed;
        stages := AddClientStages(stages, evidence.stages);
      }
    }
    assert clients[..|clients|] == clients;
    r := Aggregate(succeeded, failed, stages);
  }

  method AggregateClients(clients: seq<ClientEvidence>, domains: seq<Domain>) returns (result: map<Domain, Aggregate>)
    ensures forall d :: d in result <==> d in domains
    ensures forall d :: d in domains ==> result[d] == AggregateOf(clients, d)
  {
    result := map[];
    for k := 0 to |domains|
      invariant forall d :: d in result <==> d in domains[..k]
      invariant forall d :: d in domains[..k] ==> result[d] == AggregateOf(clients, d)
    {
      var aggregate := AggregateDomain(clients, domains[k]);
      result := result[domains[k] := aggregate];
      assert domains[..k + 1] == domains[..k] + [domains[k]];
    }
    assert domains[..|domains|] == domains;
  }

  // ---------- what the aggregate of a stage consists of ----------

  /** The records of one stage name, in order. */
  function Named(entries: seq<(string, StageRecord)>, name: string): seq<StageRecord> {
    if entries == [] then []
    else
      var front, last := Named(entries[..|entries| - 1], name), entries[|entries| - 1];
      if last.0 == name then front + [last.1] else front
  }

  function Fold(ss: seq<StageRecord>): StageRecord {
    if ss == [] then EMPTY_STAGE else Merge(Fold(ss[..|ss| - 1]), ss[|ss| - 1])
  }

  /** A stage of the report is the fold of every client's record of that name, and of nothing else. */
  lemma {:induction false} AggregateByName(entries: seq<(string, StageRecord)>, name: string)
    ensures name in AddEntries(entries) <==> Named(entries, name) != []
    ensures name in AddEntries(entries) ==> AddEntries(entries)[name] == Fold(Named(entries, name))
    decreases |entries|
  {
    if entries != [] {
      AggregateByName(entries[..|entries| - 1], name);
    }
  }

  function Started(s: StageRecord): nat { s.started }
  function SucceededIn(s: StageRecord): nat { s.succeeded }
  function FailedIn(s: StageRecord): nat { s.failed }
  function AmbiguousIn(s: StageRecord): nat { s.ambiguous }
  function Retries(s: StageRecord): nat { s.retryableBackpressure }
  function FailedShutdowns(s: StageRecord): nat { s.shutdown.failed }
  function AmbiguousShutdowns(s: StageRecord): nat { s.shutdown.ambiguous }

  function SumOf(ss: seq<StageRecord>, f: StageRecord -> nat): nat {
    if ss == [] then 0 else SumOf(ss[..|ss| - 1], f) + f(ss[|ss| - 1])
  }

  function Latencies(ss: seq<StageRecord>): (hs: seq<Histogram>)
    ensures |hs| == |ss| && AllShaped(hs) && forall i :: 0 <= i < |hs| ==> hs[i] == ss[i].latency
  {
    seq(|ss|, i requires 0 <= i < |ss| => ss[i].latency)
  }

  ghost predicate AllBalanced(ss: seq<StageRecord>) {
    forall i :: 0 <= i < |ss| ==> Balanced(ss[i])
  }

  /** Nothing is lost or invented between the workers and the report. */
  lemma {:induction false} FoldTotals(ss: seq<StageRecord>)
    ensures var r := Fold(ss);
            && r.started == SumOf(ss, Started)
            && r.succeeded == SumOf(ss, SucceededIn)
            && r.failed == SumOf(ss, FailedIn)
            && r.ambiguous == SumOf(ss, AmbiguousIn)
            && r.retryableBackpressure == SumOf(ss, Retries)
            && r.shutdown == Cancellations(SumOf(ss, FailedShutdowns), SumOf(ss, AmbiguousShutdowns))
  {
    if ss != [] {
      FoldTotals(ss[..|ss| - 1]);
    }
  }

  function ClassSum(ss: seq<StageRecord>, c: ErrorClass): nat {
    if ss == [] then 0 else ClassSum(ss[..|ss| - 1], c) + ClassCount(ss[|ss| - 1].errorClasses, c)
  }

  function AllSamples(ss: seq<StageRecord>): seq<ErrorSample> {
    if ss == [] then [] else AllSamples(ss[..|ss| - 1]) + ss[|ss| - 1].errorSamples
  }

  /** The errors of a class add up, and the first ten samples in client order are kept. */
  lemma {:induction false} FoldErrors(ss: seq<StageRecord>, c: ErrorClass)
    ensures ClassCount(Fold(ss).errorClasses, c) == ClassSum(ss, c)
    ensures var all := AllSamples(ss); Fold(ss).errorSamples == if |all| <= 10 then all else all[..10]
  {
    if ss != [] {
      var front, last := ss[..|ss| - 1], ss[|ss| - 1];
      FoldErrors(front, c);
      TakeAgain(AllSamples(front), last.errorSamples);
    } else {
      var none: map<ErrorClass, nat> := EMPTY_STAGE.errorClasses;
      assert ClassCount(none, c) == 0;
    }
  }

  lemma TakeAgain(a: seq<ErrorSample>, b: seq<ErrorSample>)
    ensures Take(Take(a, 10) + b, 10) == Take(a + b, 10)
  {
  }

  /** Folding the clients' histograms in pairs is merging them all at once. */
  lemma {:induction false} FoldLatency(ss: seq<StageRecord>)
    requires forall i :: 0 <= i < |ss| ==> ss[i].latency.maxMs >= 0.0
    ensures Fold(ss).latency == Merged(Latencies(ss)) && Fold(ss).latency.maxMs >= 0.0
  {
    if ss != [] {
      var front, last := ss[..|ss| - 1], ss[|ss| - 1];
      FoldLatency(front);
      MergedPair(Fold(front).latency, last.latency);
      assert Latencies(ss)[..|ss| - 1] == Latencies(front);
    }
  }

  lemma {:induction false} FoldBalanced(ss: seq<StageRecord>)
    requires AllBalanced(ss)
    ensures Balanced(Fold(ss))
  {
    if ss == [] {
      EmptyConsistent();
    } else {
      FoldBalanced(ss[..|ss| - 1]);
      MergeBalanced(Fold(ss[..|ss| - 1]), ss[|ss| - 1]);
    }
  }

  // ---------- the guidance's checks ----------

  /** A stage of the evidence file; `shutdown` is absent in files written before it was recorded. */
  datatype StageFile = StageFile(stage: StageRecord, shutdown: Option<Cancellations>, legacySignals: nat)

  datatype StageSummary = StageSummary(
    stage: string, started: nat, succeeded: nat, errors: int, ambiguousOutcomes: nat,
    expectedCancellations: nat, latency: Summary)

  datatype DomainSummary = DomainSummary(
    completedOperations: nat, operationsPerSecond: real, errors: int, ambiguousOutcomes: int,
    expectedCancellations: int, slowestStage: string, stages: seq<StageSummary>)

  datatype ParseError = CountMismatch(stage: string) | CancellationsExceedOutcomes(stage: string) | NoStages | NoRate

  function ExpectedShutdownCancellations(
    value: Option<Cancellations>, failed: nat, ambiguous: nat, legacyCancelled: nat, legacySignals: nat
  ): Option<Cancellations>
  {
    match value
    case None =>
      var total := Min(failed + ambiguous, legacyCancelled + legacySignals);
      var inAmbiguous := Min(ambiguous, total);
      Some(Cancellations(Min(failed, total - inAmbiguous), inAmbiguous))
    case Some(c) =>
      if c.failed > failed || c.ambiguous > ambiguous then None else Some(c)
  }

  function ParseStage(name: string, file: StageFile): Result<StageSummary, ParseError> {
    var s := file.stage;
    if Cumulative(s.latency, BUCKETS) + s.latency.overflow != s.latency.count then Err(CountMismatch(name))
    else
      match ExpectedShutdownCancellations(
          file.shutdown, s.failed, s.ambiguous, ClassCount(s.errorClasses, Cancelled), file.legacySignals)
      case None => Err(CancellationsExceedOutcomes(name))
      case Some(c) =>
        Ok(StageSummary(name, s.started, s.succeeded, s.failed - c.failed, s.ambiguous,
                        c.failed + c.ambiguous, LatencySummary(s.latency)))
  }

  function ParseStages(files: seq<(string, StageFile)>): Result<seq<StageSummary>, ParseError> {
    if files == [] then Ok([])
    else
      match ParseStage(files[0].0, files[0].1)
      case Err(e) => Err(e)
      case Ok(first) =>
        match ParseStages(files[1..])
        case Err(e) => Err(e)
        case Ok(rest) => Ok([first] + rest)
  }

  function Total(ss: seq<StageSummary>, f: StageSummary -> int): int {
    if ss == [] then 0 else f(ss[0]) + Total(ss[1..], f)
  }

  function Errors(s: StageSummary): int { s.errors }
  function AmbiguousOutcomes(s: StageSummary): int { s.ambiguousOutcomes }
  function ExpectedCancellations(s: StageSummary): int { s.expectedCancellations }

  /** The first stage, in name order, that no other exceeds in p95. */
  function Slowest(ss: seq<StageSummary>): (k: nat)
    requires ss != []
    ensures k < |ss|
    ensures forall i :: 0 <= i < |ss| ==> ss[i].latency.p95Ms <= ss[k].latency.p95Ms
    ensures forall i :: 0 <= i < k ==> ss[i].latency.p95Ms < ss[k].latency.p95Ms
  {
    if |ss| == 1 then 0
    else
      var k := Slowest(ss[1..]) + 1;
      assert forall i :: 0 < i < |ss| ==> ss[i] == ss[1..][i - 1];
      if ss[0].latency.p95Ms >= ss[k].latency.p95Ms then 0 else k
  }

  /** `parsePressureDomain`; the files come in name order. */
  function ParsePressureDomain(
    files: seq<(string, StageFile)>, succeeded: nat, durationMs: nat
  ): Result<DomainSummary, ParseError>
  {
    match ParseStages(files)
    case Err(e) => Err(e)
    case Ok(ss) =>
      if ss == [] then Err(NoStages)
      else if durationMs == 0 then Err(NoRate)
      else Ok(DomainSummary(
        succeeded,
        Round(succeeded as real / (durationMs as real / 1000.0)),
        Total(ss, Errors),
        Total(ss, AmbiguousOutcomes),
        Total(ss, ExpectedCancellations),
        ss[Slowest(ss)].stage,
        ss))
  }

  lemma {:induction false} ErrorsNonNegative(files: seq<(string, StageFile)>)
    requires ParseStages(files).Ok?
    ensures var ss := ParseStages(files).value;
            && |ss| == |files|
            && (forall i :: 0 <= i < |ss| ==> Ok(ss[i]) == ParseStage(files[i].0, files[i].1))
            && (forall i :: 0 <= i < |ss| ==> ss[i].errors >= 0)
            && Total(ss, Errors) >= 0
  {
    if files != [] {
      ErrorsNonNegative(files[1..]);
    }
  }

  /** The file a current version writes for a stage. */
  function FileOf(s: StageRecord, legacySignals: nat): StageFile {
    StageFile(s, Some(s.shutdown), legacySignals)
  }

  ghost predicate Produced(files: seq<(string, StageFile)>) {
    forall i :: 0 <= i < |files| ==>
      var file := files[i].1;
      Balanced(file.stage) && file.shutdown == Some(file.stage.shutdown)
  }

  lemma {:induction false} ProducedStagesParse(files: seq<(string, StageFile)>)
    requires Produced(files)
    ensures ParseStages(files).Ok?
  {
    if files != [] {
      assert Balanced(files[0].1.stage);
      forall i | 0 <= i < |files[1..]| ensures files[1..][i] == files[i + 1] {}
      ProducedStagesParse(files[1..]);
    }
  }

  /** The consistency checks never fail on produced evidence: only missing stages or no duration can. */
  lemma ProducedEvidenceParses(files: seq<(string, StageFile)>, succeeded: nat, durationMs: nat)
    requires Produced(files)
    ensures ParsePressureDomain(files, succeeded, durationMs).Ok? <==> files != [] && durationMs > 0
    ensures ParsePressureDomain(files, succeeded, durationMs).Ok? ==>
              ParsePressureDomain(files, succeeded, durationMs).value.errors >= 0
  {
    ProducedStagesParse(files);
    ErrorsNonNegative(files);
  }

  /** The aggregate's stages listed under some order of their names. */
  function Listed(stages: map<string, StageRecord>, names: seq<string>): (files: seq<(string, StageFile)>)
    requires forall i :: 0 <= i < |names| ==> names[i] in stages
    ensures |files| == |names|
    ensures forall i :: 0 <= i < |files| ==> files[i] == (names[i], FileOf(stages[names[i]], 0))
  {
    seq(|names|, i requires 0 <= i < |names| => (names[i], FileOf(stages[names[i]], 0)))
  }

  ghost predicate BalancedEntries(entries: seq<(string, StageRecord)>) {
    forall i :: 0 <= i < |entries| ==> Balanced(entries[i].1)
  }

  lemma {:induction false} NamedBalanced(entries: seq<(string, StageRecord)>, name: string)
    requires BalancedEntries(entries)
    ensures AllBalanced(Named(entries, name))
  {
    if entries != [] {
      NamedBalanced(entries[..|entries| - 1], name);
    }
  }

  /**
   * From worker to report: when every client's counters are in balance, the report of a domain
   * parses exactly when some client has a stage in it, and its errors are not negative.
   */
  lemma {:induction false} AggregateParses(clients: seq<ClientEvidence>, d: Domain, names: seq<string>, durationMs: nat)
    requires BalancedEntries(Entries(clients, d)) && durationMs > 0
    requires forall name :: name in names <==> name in AggregateOf(clients, d).stages
    ensures var a := AggregateOf(clients, d);
            var r := ParsePressureDomain(Listed(a.stages, names), a.succeeded, durationMs);
            && (r.Ok? <==> Entries(clients, d) != [])
            && (r.Ok? ==> r.value.errors >= 0)
  {
    var entries := Entries(clients, d);
    var files := Listed(AddEntries(entries), names);
    forall i | 0 <= i < |files| ensures Balanced(files[i].1.stage) {
      AggregateByName(entries, names[i]);
      NamedBalanced(entries, names[i]);
      FoldBalanced(Named(entries, names[i]));
    }
    ProducedEvidenceParses(files, Succeeded(clients, d), durationMs);
    if entries != [] {
      AggregateByName(entries, entries[|entries| - 1].0);
      assert entries[|entries| - 1].0 in names;
    }
    if names != [] {
      AggregateByName(entries, names[0]);
    }
  }

  // ---------- the rating ----------

  datatype Rating = Clear | Watch | Constrained

  ghost predicate Saturated(s: StageSummary, timeoutMs: nat) {
    s.errors > 0 || s.latency.p95Ms > timeoutMs as real / 2.0
  }

  ghost predicate Slow(s: StageSummary, timeoutMs: nat) {
    s.latency.p95Ms > timeoutMs as real / 4.0
  }

  /** The rating of `extractPressureGuidance`; `growth` counts pending- and RSS-growth warnings. */
  method Rate(
    domains: seq<DomainSummary>, timeoutMs: nat, ingressTimeouts: nat, routerBackpressure: nat, growth: nat
  ) returns (rating: Rating)
    ensures rating == Constrained <==>
              ingressTimeouts > 0 || routerBackpressure > 0 ||
              exists i, j :: 0 <= i < |domains| && 0 <= j < |domains[i].stages| && Saturated(domains[i].stages[j], timeoutMs)
    ensures rating == Clear <==>
              && ingressTimeouts == 0 && routerBackpressure == 0 && growth == 0
              && forall i, j :: 0 <= i < |domains| && 0 <= j < |domains[i].stages| ==>
                   domains[i].stages[j].errors <= 0 && !Slow(domains[i].stages[j], timeoutMs)
  {
    var constrained, watch := 0, 0;
    for i := 0 to |domains|
      invariant 0 <= constrained && 0 <= watch
      invariant constrained > 0 <==>
                  exists a, b :: 0 <= a < i && 0 <= b < |domains[a].stages| && Saturated(domains[a].stages[b], timeoutMs)
      invariant constrained == watch == 0 <==>
                  forall a, b :: 0 <= a < i && 0 <= b < |domains[a].stages| ==>
                    domains[a].stages[b].errors <= 0 && !Slow(domains[a].stages[b], timeoutMs)
    {
      var stages := domains[i].stages;
      ghost var constrained0, watch0 := constrained, watch;
      for j := 0 to |stages|
        invariant constrained0 <= constrained && watch0 <= watch
        invariant constrained > constrained0 <==> exists b :: 0 <= b < j && Saturated(stages[b], timeoutMs)
        invariant constrained == constrained0 && watch == watch0 <==>
                    forall b :: 0 <= b < j ==> stages[b].errors <= 0 && !Slow(stages[b], timeoutMs)
      {
        if stages[j].errors > 0 {
          constrained := constrained + 1;
        }
        if stages[j].latency.p95Ms > timeoutMs as real / 2.0 {
          constrained := constrained + 1;
        } else if stages[j].latency.p95Ms > timeoutMs as real / 4.0 {
          watch := watch + 1;
        }
      }
    }
    if ingressTimeouts > 0 { constrained := constrained + 1; }
    if routerBackpressure > 0 { constrained := constrained + 1; }
    watch := watch + growth;
    rating := if constrained > 0 then Constrained else if watch > 0 then Watch else Clear;
  }

  /**
   * Latency cannot constrain the rating behind the warnings' back: below a 120000 ms timeout, a
   * stage of the report whose p95 exceeds half the timeout has a client whose own p95 does.
   */
  lemma ConstrainedStageHasWarning(entries: seq<(string, StageRecord)>, name: string, timeoutMs: nat)
    requires BalancedEntries(entries) && name in AddEntries(entries) && timeoutMs < 120000
    requires LatencySummary(AddEntries(entries)[name].latency).p95Ms > timeoutMs as real / 2.0
    ensures exists s: StageRecord :: s in Named(entries, name) && LatencySummary(s.latency).p95Ms > timeoutMs as real / 2.0
  {
    var ss := Named(entries, name);
    AggregateByName(entries, name);
    NamedBalanced(entries, name);
    forall i | 0 <= i < |ss| ensures ss[i].latency.maxMs >= 0.0 && Consistent(Latencies(ss)[i]) {
      assert Balanced(ss[i]);
    }
    FoldLatency(ss);
    AggregateWarned(Latencies(ss), timeoutMs);
    var k :| 0 <= k < |ss| && NearTimeout(Latencies(ss)[k], timeoutMs);
    assert ss[k] in ss;
  }
}
