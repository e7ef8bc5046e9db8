/** The durability oracle of the crash-cut run (src/orchestration/durability-crash-cuts.ts). */
module DurabilityLedger {
  import opened Wrappers
  import opened Sequences

  datatype Domain = Queue | Kv | Stream | Schedule

  datatype Kind = Started | Acknowledged | Failed | Observed

  /** A log record that names a durable domain or not; `sequence` is None when it is no natural number. */
  datatype Record = Record(domain: Option<Domain>, kind: Kind, sequence: Option<nat>)

  /** The report of the verifier: for each domain the values it read, None where one is no natural number. */
  type Report = map<Domain, seq<Option<nat>>>

  datatype Entry = Entry(started: seq<int>, acknowledged: seq<int>, failed: seq<int>, observed: seq<int>)

  type Ledger = map<Domain, Entry>

  datatype LedgerError =
    | InvalidSequence
    | VerifierLogs(found: nat)
    | NoReport
    | Omitted(domain: Domain)
    | ObservedTwice(domain: Domain, sequence: int)
    | NotStarted(domain: Domain, sequence: int)
    | BaselineLost(domain: Domain)
    | Disappeared(domain: Domain, sequence: int)
    | Unstarted(domain: Domain, sequence: int)

  function Domains(): (r: seq<Domain>)
    ensures Distinct(r)
  {
    [Queue, Kv, Stream, Schedule]
  }

  lemma EveryDomain(d: Domain)
    ensures d in Domains()
  {
    match d
    case Queue => assert Domains()[0] == d;
    case Kv => assert Domains()[1] == d;
    case Stream => assert Domains()[2] == d;
    case Schedule => assert Domains()[3] == d;
  }

  // ---------- what the logs say ----------

  predicate Readable(r: Record) {
    r.domain.Some? ==> r.sequence.Some?
  }

  ghost predicate AllReadable(records: seq<Record>) {
    forall i :: 0 <= i < |records| ==> Readable(records[i])
  }

  /** The sequences recorded for a domain and a kind of event. */
  function Recorded(records: seq<Record>, domain: Domain, kind: Kind): set<int> {
    set r | r in records && r.domain == Some(domain) && r.kind == kind && r.sequence.Some? :: r.sequence.value
  }

  /** `[...new Set(values)]`: the first of each. */
  function Unique(values: seq<int>): (r: seq<int>)
    ensures Distinct(r) && ToSet(r) == ToSet(values)
  {
    if values == [] then []
    else
      var front, last := values[..|values| - 1], values[|values| - 1];
      assert values == front + [last];
      ToSetAppend(front, last);
      ToSetAppend(Unique(front), last);
      if last in front then Unique(front) else Unique(front) + [last]
  }

  function Canonical(values: seq<int>): (r: seq<int>)
    ensures Increasing(r) && ToSet(r) == ToSet(values)
  {
    var r := Sort(Unique(values));
    SameElements(r, Unique(values));
    r
  }

  /** Every list of a ledger entry is strictly increasing and holds exactly what was recorded. */
  ghost predicate IsEntry(e: Entry, records: seq<Record>, domain: Domain, observed: set<int>) {
    && Increasing(e.started) && ToSet(e.started) == Recorded(records, domain, Started)
    && Increasing(e.acknowledged) && ToSet(e.acknowledged) == Recorded(records, domain, Acknowledged)
    && Increasing(e.failed) && ToSet(e.failed) == Recorded(records, domain, Failed)
    && Increasing(e.observed) && ToSet(e.observed) == observed
  }

  ghost predicate ReadableValues(values: seq<Option<nat>>) {
    (forall i :: 0 <= i < |values| ==> values[i].Some?) && Distinct(values)
  }

  function Values(values: seq<Option<nat>>): (r: set<int>) {
    set v | v in values && v.Some? :: v.value
  }

  ghost predicate Reported(report: Report, d: Domain) {
    d in report && ReadableValues(report[d])
  }

  ghost predicate ReadableReport(report: Report) {
    forall d: Domain :: Reported(report, d)
  }

  ghost predicate HasEntry(ledger: Ledger, records: seq<Record>, report: Report, d: Domain) {
    d in ledger && d in report && IsEntry(ledger[d], records, d, Values(report[d]))
  }

  ghost predicate IsLedger(ledger: Ledger, records: seq<Record>, report: Report) {
    forall d: Domain :: HasEntry(ledger, records, report, d)
  }

  /**
   * The ledger depends only on which records were logged and what was read: not on their order, not
   * on repetitions, and not on how the records are spread over the logs of several writers.
   */
  lemma LedgerDetermined(a: Ledger, b: Ledger, left: seq<Record>, right: seq<Record>, read: Report, reread: Report)
    requires IsLedger(a, left, read) && IsLedger(b, right, reread)
    requires ToSet(left) == ToSet(right)
    requires forall d: Domain :: d in read && d in reread && Values(read[d]) == Values(reread[d])
    ensures a == b
  {
    forall d: Domain ensures d in a && d in b && a[d] == b[d] {
      assert HasEntry(a, left, read, d) && HasEntry(b, right, reread, d);
      SameRecorded(left, right, d, Started);
      SameRecorded(left, right, d, Acknowledged);
      SameRecorded(left, right, d, Failed);
      IncreasingUnique(a[d].started, b[d].started);
      IncreasingUnique(a[d].acknowledged, b[d].acknowledged);
      IncreasingUnique(a[d].failed, b[d].failed);
      IncreasingUnique(a[d].observed, b[d].observed);
    }
  }

  lemma SameRecorded(left: seq<Record>, right: seq<Record>, domain: Domain, kind: Kind)
    requires ToSet(left) == ToSet(right)
    ensures Recorded(left, domain, kind) == Recorded(right, domain, kind)
  {
    forall r ensures r in left <==> r in right {
      assert r in left <==> r in ToSet(left);
    }
  }

  // ---------- reading the logs ----------

  lemma RecordedNext(records: seq<Record>, r: Record, domain: Domain, kind: Kind)
    ensures Recorded(records + [r], domain, kind)
         == Recorded(records, domain, kind)
            + (if r.domain == Some(domain) && r.kind == kind && r.sequence.Some? then {r.sequence.value} else {})
  {
  }

  /** The lists being filled: recorded sequences in log order, repetitions included. */
  ghost predicate IsFilled(e: Entry, records: seq<Record>, domain: Domain) {
    && ToSet(e.started) == Recorded(records, domain, Started)
    && ToSet(e.acknowledged) == Recorded(records, domain, Acknowledged)
    && ToSet(e.failed) == Recorded(records, domain, Failed)
  }

  function Push(e: Entry, kind: Kind, sequence: int): Entry {
    match kind
    case Started => e.(started := e.started + [sequence])
    case Acknowledged => e.(acknowledged := e.acknowledged + [sequence])
    case Failed => e.(failed := e.failed + [sequence])
    case Observed => e
  }

  lemma PushKeeps(e: Entry, records: seq<Record>, r: Record, domain: Domain)
    requires IsFilled(e, records, domain) && Readable(r)
    ensures IsFilled(if r.domain == Some(domain) then Push(e, r.kind, r.sequence.value) else e, records + [r], domain)
  {
    RecordedNext(records, r, domain, Started);
    RecordedNext(records, r, domain, Acknowledged);
    RecordedNext(records, r, domain, Failed);
    if r.domain == Some(domain) {
      ToSetAppend(e.started, r.sequence.value);
      ToSetAppend(e.acknowledged, r.sequence.value);
      ToSetAppend(e.failed, r.sequence.value);
    }
  }

  method FillLedger(records: seq<Record>) returns (r: Option<Ledger>)
    ensures r.Some? <==> AllReadable(records)
    ensures r.Some? ==> forall d: Domain :: d in r.value && IsFilled(r.value[d], records, d)
  {
    var empty := Entry([], [], [], []);
    var ledger: Ledger := map d | d in Domains() :: empty;
    forall d: Domain ensures d in ledger {
      EveryDomain(d);
    }
    for i := 0 to |records|
      invariant forall j :: 0 <= j < i ==> Readable(records[j])
      invariant forall d: Domain :: d in ledger && IsFilled(ledger[d], records[..i], d)
    {
      var record := records[i];
      assert records[..i + 1] == records[..i] + [record];
      if Readable(record) {
        forall d: Domain
          ensures IsFilled(if record.domain == Some(d) then Push(ledger[d], record.kind, record.sequence.value) else ledger[d],
                           records[..i + 1], d)
        {
          PushKeeps(ledger[d], records[..i], record, d);
        }
      }
      if record.domain.Some? {
        var domain := record.domain.value;
        if record.sequence.None? {
          return None;
        }
        ledger := ledger[domain := Push(ledger[domain], record.kind, record.sequence.value)];
      }
    }
    assert records[..|records|] == records;
    return Some(ledger);
  }

  method ParseValues(values: seq<Option<nat>>) returns (r: Option<seq<int>>)
    ensures r.Some? <==> forall i :: 0 <= i < |values| ==> values[i].Some?
    ensures r.Some? ==> |r.value| == |values| && forall i :: 0 <= i < |values| ==> values[i] == Some(r.value[i])
  {
    var read: seq<int> := [];
    for i := 0 to |values|
      invariant |read| == i && forall j :: 0 <= j < i ==> values[j] == Some(read[j])
    {
      if values[i].None? {
        return None;
      }
      read := read + [values[i].value];
    }
    return Some(read);
  }

  method FindDuplicate(values: seq<int>) returns (r: Option<int>)
    ensures r.None? <==> Distinct(values)
    ensures r.Some? ==> exists i, j :: 0 <= i < j < |values| && values[i] == values[j] == r.value
  {
    var seen: set<int> := {};
    for i := 0 to |values|
      invariant seen == ToSet(values[..i]) && Distinct(values[..i])
    {
      assert values[..i + 1] == values[..i] + [values[i]];
      ToSetAppend(values[..i], values[i]);
      if values[i] in seen {
        var j :| 0 <= j < i && values[..i][j] == values[i];
        assert values[j] == values[i];
        return Some(values[i]);
      }
      seen := seen + {values[i]};
    }
    assert values[..|values|] == values;
    return None;
  }

  /** The error about a report names the domain it leaves out, or the value it lists twice. */
  ghost predicate BlamesReport(e: LedgerError, report: Report) {
    match e
    case InvalidSequence => exists d: Domain :: d in report && None in report[d]
    case Omitted(d) => d !in report
    case ObservedTwice(d, x) => d in report && x >= 0 && BlamesValues(report[d], x)
    case _ => false
  }

  ghost predicate BlamesValues(values: seq<Option<nat>>, x: int) {
    exists i, j :: 0 <= i < j < |values| && values[i].Some? && values[i] == values[j] && values[i].value == x
  }

  /** The observed values of one domain, or what is wrong with them. */
  method ReadObserved(domain: Domain, values: seq<Option<nat>>) returns (r: Result<seq<int>, LedgerError>)
    ensures r.Ok? <==> ReadableValues(values)
    ensures r.Ok? ==> Increasing(r.value) && ToSet(r.value) == Values(values)
    ensures r.Err? ==>
              || (r.error == InvalidSequence && None in values)
              || (r.error.ObservedTwice? && r.error.domain == domain && BlamesValues(values, r.error.sequence))
  {
    var read := ParseValues(values);
    if read.None? {
      return Err(InvalidSequence);
    }
    var duplicate := FindDuplicate(read.value);
    if duplicate.Some? {
      var i, j :| 0 <= i < j < |read.value| && read.value[i] == read.value[j] == duplicate.value;
      assert values[i] == Some(read.value[i]) && values[j] == Some(read.value[j]);
      return Err(ObservedTwice(domain, duplicate.value));
    }
    return Ok(Canonical(read.value));
  }

  /** Adds what the verifier read, and makes every list a sorted set. */
  method FinishLedger(filled: Ledger, records: seq<Record>, report: Report) returns (r: Result<Ledger, LedgerError>)
    requires forall d: Domain :: d in filled && IsFilled(filled[d], records, d)
    ensures r.Ok? <==> ReadableReport(report)
    ensures r.Ok? ==> IsLedger(r.value, records, report)
    ensures r.Err? ==> BlamesReport(r.error, report)
  {
    var ledger := filled;
    var domains := Domains();
    for i := 0 to |domains|
      invariant forall d: Domain :: d in ledger
      invariant forall j :: i <= j < |domains| ==> ledger[domains[j]] == filled[domains[j]]
      invariant forall j :: 0 <= j < i ==> Reported(report, domains[j]) && HasEntry(ledger, records, report, domains[j])
    {
      var domain := domains[i];
      if domain !in report {
        assert !Reported(report, domain);
        return Err(Omitted(domain));
      }
      var observed := ReadObserved(domain, report[domain]);
      if observed.Err? {
        assert !Reported(report, domain);
        return Err(observed.error);
      }
      var e := FinishEntry(ledger[domain], records, domain, observed.value);
      ledger := ledger[domain := e];
    }
    forall d: Domain ensures Reported(report, d) && HasEntry(ledger, records, report, d) {
      EveryDomain(d);
    }
    return Ok(ledger);
  }

  method FinishEntry(e: Entry, records: seq<Record>, domain: Domain, observed: seq<int>) returns (r: Entry)
    requires IsFilled(e, records, domain) && Increasing(observed)
    ensures IsEntry(r, records, domain, ToSet(observed))
  {
    return Entry(Canonical(e.started), Canonical(e.acknowledged), Canonical(e.failed), observed);
  }

  method AnalyzeDurabilityLedger(baselineLogs: seq<seq<Record>>, cutLogs: seq<seq<Record>>, verifyLogs: seq<Option<Report>>)
    returns (r: Result<Ledger, LedgerError>)
    ensures r.Ok? <==>
              && AllReadable(Flatten(baselineLogs + cutLogs))
              && |verifyLogs| == 1 && verifyLogs[0].Some? && ReadableReport(verifyLogs[0].value)
    ensures r.Ok? ==> IsLedger(r.value, Flatten(baselineLogs + cutLogs), verifyLogs[0].value)
    ensures r.Err? ==>
              || (r.error == InvalidSequence && !AllReadable(Flatten(baselineLogs + cutLogs)))
              || (r.error.VerifierLogs? && r.error.found == |verifyLogs| != 1)
              || (r.error == NoReport && |verifyLogs| == 1 && verifyLogs[0].None?)
              || (|verifyLogs| == 1 && verifyLogs[0].Some? && BlamesReport(r.error, verifyLogs[0].value))
  {
    var records := Flatten(baselineLogs + cutLogs);
    var filled := FillLedger(records);
    if filled.None? {
      return Err(InvalidSequence);
    }
    if |verifyLogs| != 1 {
      return Err(VerifierLogs(|verifyLogs|));
    }
    if verifyLogs[0].None? {
      return Err(NoReport);
    }
    r := FinishLedger(filled.value, records, verifyLogs[0].value);
  }

  // ---------- the verdict ----------

  /** Nothing acknowledged is missing and nothing unstarted is there. */
  ghost predicate EntryDurable(e: Entry, iterations: nat) {
    && (forall sequence :: 0 <= sequence <= iterations ==> sequence in e.started)
    && 0 in e.acknowledged
    && (forall sequence :: sequence in e.acknowledged ==> sequence in e.observed)
    && (forall sequence :: sequence in e.observed ==> sequence in e.started)
  }

  ghost predicate DurableIn(ledger: Ledger, iterations: nat, d: Domain) {
    d in ledger && EntryDurable(ledger[d], iterations)
  }

  ghost predicate LedgerDurable(ledger: Ledger, iterations: nat) {
    forall d: Domain :: DurableIn(ledger, iterations, d)
  }

  /** The error of the verdict names the domain and the sequence that breaks it. */
  ghost predicate BlamesEntry(e: LedgerError, entry: Entry, iterations: nat) {
    match e
    case NotStarted(_, x) => 0 <= x <= iterations && x !in entry.started
    case BaselineLost(_) => 0 !in entry.acknowledged
    case Disappeared(_, x) => x in entry.acknowledged && x !in entry.observed
    case Unstarted(_, x) => x in entry.observed && x !in entry.started
    case _ => false
  }

  ghost predicate Names(e: LedgerError, d: Domain) {
    match e
    case NotStarted(domain, _) => domain == d
    case BaselineLost(domain) => domain == d
    case Disappeared(domain, _) => domain == d
    case Unstarted(domain, _) => domain == d
    case _ => false
  }

  method AssertEntry(domain: Domain, e: Entry, iterations: nat) returns (error: Option<LedgerError>)
    ensures error.None? <==> EntryDurable(e, iterations)
    ensures error.Some? ==> Names(error.value, domain) && BlamesEntry(error.value, e, iterations)
  {
    for sequence := 0 to iterations + 1
      invariant forall s :: 0 <= s < sequence ==> s in e.started
    {
      if sequence !in e.started {
        return Some(NotStarted(domain, sequence));
      }
    }
    if 0 !in e.acknowledged {
      return Some(BaselineLost(domain));
    }
    for i := 0 to |e.acknowledged|
      invariant forall j :: 0 <= j < i ==> e.acknowledged[j] in e.observed
    {
      if e.acknowledged[i] !in e.observed {
        return Some(Disappeared(domain, e.acknowledged[i]));
      }
    }
    for i := 0 to |e.observed|
      invariant forall j :: 0 <= j < i ==> e.observed[j] in e.started
    {
      if e.observed[i] !in e.started {
        return Some(Unstarted(domain, e.observed[i]));
      }
    }
    return None;
  }

  method AssertDurabilityLedger(ledger: Ledger, iterations: nat) returns (error: Option<LedgerError>)
    requires forall d: Domain :: d in ledger
    ensures error.None? <==> LedgerDurable(ledger, iterations)
    ensures error.Some? ==> exists d: Domain :: Names(error.value, d) && BlamesEntry(error.value, ledger[d], iterations)
  {
    var domains := Domains();
    for i := 0 to |domains|
      invariant forall j :: 0 <= j < i ==> DurableIn(ledger, iterations, domains[j])
    {
      var domain := domains[i];
      error := AssertEntry(domain, ledger[domain], iterations);
      if error.Some? {
        assert !DurableIn(ledger, iterations, domain);
        return;
      }
    }
    forall d: Domain ensures DurableIn(ledger, iterations, d) {
      EveryDomain(d);
    }
    return None;
  }

  /** What the records and the values read must say for the verdict on the ledger; the analysis comes before it. */
  ghost predicate Durable(records: seq<Record>, report: Report, iterations: nat) {
    forall d: Domain :: DomainDurable(records, report, iterations, d)
  }

  ghost predicate DomainDurable(records: seq<Record>, report: Report, iterations: nat, d: Domain) {
    && d in report
    && (forall sequence :: 0 <= sequence <= iterations ==> sequence in Recorded(records, d, Started))
    && 0 in Recorded(records, d, Acknowledged)
    && Recorded(records, d, Acknowledged) <= Values(report[d]) <= Recorded(records, d, Started)
  }

  lemma DurableIff(ledger: Ledger, records: seq<Record>, report: Report, iterations: nat)
    requires IsLedger(ledger, records, report)
    ensures LedgerDurable(ledger, iterations) <==> Durable(records, report, iterations)
  {
    forall d: Domain ensures DurableIn(ledger, iterations, d) <==> DomainDurable(records, report, iterations, d)
    {
      assert HasEntry(ledger, records, report, d);
      EntryDurableIff(ledger[d], records, d, Values(report[d]), iterations);
    }
  }

  lemma EntryDurableIff(e: Entry, records: seq<Record>, d: Domain, observed: set<int>, iterations: nat)
    requires IsEntry(e, records, d, observed)
    ensures EntryDurable(e, iterations) <==>
              && (forall sequence :: 0 <= sequence <= iterations ==> sequence in Recorded(records, d, Started))
              && 0 in Recorded(records, d, Acknowledged)
              && Recorded(records, d, Acknowledged) <= observed <= Recorded(records, d, Started)
  {
    assert forall s :: s in e.started <==> s in ToSet(e.started);
    assert forall s :: s in e.acknowledged <==> s in ToSet(e.acknowledged);
    assert forall s :: s in e.observed <==> s in ToSet(e.observed);
  }

  // ---------- outcomes of one cut ----------

  datatype CutOutcome = CutAcknowledged | CutFailed | CutAmbiguous

  /** An acknowledgement outweighs any failure, wherever it stands in the logs. */
  function OutcomeOf(records: seq<Record>, domain: Domain, sequence: nat): CutOutcome {
    if sequence in Recorded(records, domain, Acknowledged) then CutAcknowledged
    else if sequence in Recorded(records, domain, Failed) then CutFailed
    else CutAmbiguous
  }

  /** The records that decide: any acknowledgement, else any failure, else nothing is known. */
  lemma OutcomeIff(records: seq<Record>, domain: Domain, sequence: nat)
    ensures var acknowledged, failed := Record(Some(domain), Acknowledged, Some(sequence)), Record(Some(domain), Failed, Some(sequence));
            match OutcomeOf(records, domain, sequence)
            case CutAcknowledged => acknowledged in records
            case CutFailed => acknowledged !in records && failed in records
            case CutAmbiguous => acknowledged !in records && failed !in records
  {
    RecordedIff(records, domain, Acknowledged, sequence);
    RecordedIff(records, domain, Failed, sequence);
  }

  lemma RecordedIff(records: seq<Record>, domain: Domain, kind: Kind, sequence: nat)
    ensures sequence in Recorded(records, domain, kind) <==> Record(Some(domain), kind, Some(sequence)) in records
  {
  }

  method CutOutcomes(records: seq<Record>, sequence: nat) returns (result: map<Domain, CutOutcome>)
    ensures forall d: Domain :: d in result && result[d] == OutcomeOf(records, d, sequence)
  {
    result := map d | d in Domains() :: CutAmbiguous;
    forall d: Domain ensures d in result {
      EveryDomain(d);
    }
    for i := 0 to |records|
      invariant forall d: Domain :: d in result && result[d] == OutcomeOf(records[..i], d, sequence)
    {
      var record := records[i];
      assert records[..i + 1] == records[..i] + [record];
      forall d: Domain, k: Kind
        ensures Recorded(records[..i + 1], d, k)
             == Recorded(records[..i], d, k)
                + (if record.domain == Some(d) && record.kind == k && record.sequence.Some? then {record.sequence.value} else {})
      {
        RecordedNext(records[..i], record, d, k);
      }
      if record.domain.Some? && record.sequence == Some(sequence) {
        var domain := record.domain.value;
        if record.kind == Acknowledged {
          result := result[domain := CutAcknowledged];
        }
        if record.kind == Failed && result[domain] != CutAcknowledged {
          result := result[domain := CutFailed];
        }
      }
    }
    assert records[..|records|] == records;
  }
}
