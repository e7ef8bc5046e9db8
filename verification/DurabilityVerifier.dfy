/** The verifier that reads everything back after the crash cuts (src/workloads/durability-crash-cuts.ts). */
module DurabilityVerifier {
  import opened Wrappers
  import opened Sequences
  import opened DurabilityLedger

  datatype VerifyError =
    | Interrupted
    | UnknownPayload
    | UnexpectedOffset(offset: nat)
    | WrongBody
    | UnexpectedRoute

  /**
   * What the broker answers a verifier: batches of queue payloads, as the sequence whose payload they
   * are; for each key found whether its value is the expected one; for each stream the batches read
   * from it, as offsets and whether the body is the expected one; and pages of schedule entries.
   */
  datatype Answers = Answers(
    queue: seq<seq<Option<nat>>>,
    kv: map<nat, bool>,
    streams: map<nat, seq<seq<(nat, bool)>>>,
    schedule: seq<seq<(Option<nat>, bool)>>
  )

  /** The queue payloads up to the first empty batch. */
  function Polled(replies: seq<seq<Option<nat>>>): seq<Option<nat>> {
    if replies == [] || replies[0] == [] then [] else replies[0] + Polled(replies[1..])
  }

  /** A drain ends with the first empty batch and has read all before it. */
  lemma {:induction false} PolledBefore(replies: seq<seq<Option<nat>>>, k: nat)
    requires k < |replies| && replies[k] == [] && forall j :: 0 <= j < k ==> replies[j] != []
    ensures Polled(replies) == Flatten(replies[..k])
    decreases k
  {
    if k > 0 {
      assert replies[..k][1..] == replies[1..][..k - 1];
      PolledBefore(replies[1..], k - 1);
    }
  }

  predicate Ends(replies: seq<seq<Option<nat>>>) {
    exists k :: 0 <= k < |replies| && replies[k] == []
  }

  predicate Known(items: seq<Option<nat>>, iterations: nat) {
    forall i :: 0 <= i < |items| ==> items[i].Some? && items[i].value <= iterations
  }

  function Routes(entries: seq<(Option<nat>, bool)>): (r: seq<Option<nat>>)
    ensures |r| == |entries| && forall i :: 0 <= i < |r| ==> r[i] == entries[i].0
  {
    seq(|entries|, i requires 0 <= i < |entries| => entries[i].0)
  }

  function StreamRecords(a: Answers, n: nat): seq<(nat, bool)> {
    if n in a.streams then Flatten(a.streams[n]) else []
  }

  /** How often a verifier comes across a sequence of a domain. */
  function Found(a: Answers, d: Domain, n: nat): nat {
    match d
    case Queue => multiset(Polled(a.queue))[Some(n)]
    case Kv => if n in a.kv then 1 else 0
    case Stream => |StreamRecords(a, n)|
    case Schedule => multiset(Routes(Flatten(a.schedule)))[Some(n)]
  }

  /** Nothing the verifier looks at makes it throw. */
  ghost predicate ReadsThrough(a: Answers, iterations: nat) {
    && Ends(a.queue) && Known(Polled(a.queue), iterations)
    && (forall n :: n in a.kv && n <= iterations ==> a.kv[n])
    && (forall n: nat :: n <= iterations ==> AllFirst(StreamRecords(a, n)))
    && AllExpected(Flatten(a.schedule), iterations)
  }

  ghost predicate AllExpected(entries: seq<(Option<nat>, bool)>, iterations: nat) {
    Known(Routes(entries), iterations) && forall i :: 0 <= i < |entries| ==> entries[i].1
  }

  ghost predicate AllFirst(records: seq<(nat, bool)>) {
    forall i :: 0 <= i < |records| ==> records[i] == (0, true)
  }

  /** The values are the items, one for one. */
  ghost predicate Lists(values: seq<int>, items: seq<Option<nat>>) {
    |values| == |items| && forall i :: 0 <= i < |values| ==> items[i].Some? && items[i].value == values[i]
  }

  lemma {:induction false} ListsCount(values: seq<int>, items: seq<Option<nat>>, n: nat)
    requires Lists(values, items)
    ensures multiset(values)[n] == multiset(items)[Some(n)]
  {
    if values != [] {
      var k := |values| - 1;
      assert values == values[..k] + [values[k]] && items == items[..k] + [items[k]];
      ListsCount(values[..k], items[..k], n);
    }
  }

  /** The error names what the verifier did not expect. */
  ghost predicate Blames(e: VerifyError, a: Answers, iterations: nat) {
    match e
    case Interrupted => !Ends(a.queue)
    case UnknownPayload => !Known(Polled(a.queue), iterations)
    case UnexpectedOffset(_) => exists n: nat :: n <= iterations && BlamesStream(e, StreamRecords(a, n))
    case UnexpectedRoute => !Known(Routes(Flatten(a.schedule)), iterations)
    case WrongBody =>
      || (exists n :: n in a.kv && n <= iterations && !a.kv[n])
      || (exists n: nat :: n <= iterations && BlamesStream(e, StreamRecords(a, n)))
      || (exists i :: 0 <= i < |Flatten(a.schedule)| && !Flatten(a.schedule)[i].1)
  }

  ghost predicate BlamesStream(e: VerifyError, records: seq<(nat, bool)>) {
    match e
    case UnexpectedOffset(offset) => offset != 0 && exists i :: 0 <= i < |records| && records[i].0 == offset
    case WrongBody => exists i :: 0 <= i < |records| && !records[i].1
    case _ => false
  }

  method Identify(items: seq<Option<nat>>, iterations: nat) returns (r: Result<seq<int>, VerifyError>)
    ensures r.Ok? <==> Known(items, iterations)
    ensures r.Err? ==> r.error == UnknownPayload
    ensures r.Ok? ==> Lists(r.value, items)
  {
    var observed: seq<int> := [];
    for i := 0 to |items|
      invariant Known(items[..i], iterations) && Lists(observed, items[..i])
    {
      if items[i].None? || items[i].value > iterations {
        return Err(UnknownPayload);
      }
      observed := observed + [items[i].value];
    }
    assert items[..|items|] == items;
    return Ok(observed);
  }

  method ReadQueue(replies: seq<seq<Option<nat>>>, iterations: nat) returns (r: Result<seq<int>, VerifyError>)
    ensures r.Ok? <==> Ends(replies) && Known(Polled(replies), iterations)
    ensures r.Err? ==>
              || (r.error == UnknownPayload && !Known(Polled(replies), iterations))
              || (r.error == Interrupted && !Ends(replies))
    ensures r.Ok? ==> Lists(r.value, Polled(replies))
  {
    var observed: seq<int> := [];
    ghost var read: seq<Option<nat>> := [];
    for i := 0 to |replies|
      invariant forall j :: 0 <= j < i ==> replies[j] != []
      invariant Polled(replies) == read + Polled(replies[i..])
      invariant Known(read, iterations) && Lists(observed, read)
    {
      if replies[i] == [] {
        return Ok(observed);
      }
      var items := Identify(replies[i], iterations);
      PolledNext(replies, i, read);
      if items.Err? {
        KnownPart(read, replies[i], Polled(replies[i + 1..]), iterations);
        return Err(items.error);
      }
      read := read + replies[i];
      observed := observed + items.value;
    }
    return Err(Interrupted);
  }

  lemma PolledNext(replies: seq<seq<Option<nat>>>, i: nat, read: seq<Option<nat>>)
    requires i < |replies| && replies[i] != [] && Polled(replies) == read + Polled(replies[i..])
    ensures Polled(replies) == read + replies[i] + Polled(replies[i + 1..])
  {
    assert replies[i..][1..] == replies[i + 1..];
  }

  lemma KnownPart(a: seq<Option<nat>>, b: seq<Option<nat>>, c: seq<Option<nat>>, iterations: nat)
    requires !Known(b, iterations)
    ensures !Known(a + b + c, iterations)
  {
    var i :| 0 <= i < |b| && !(b[i].Some? && b[i].value <= iterations);
    assert (a + b + c)[|a| + i] == b[i];
  }

  method ReadKv(kv: map<nat, bool>, iterations: nat) returns (r: Result<seq<int>, VerifyError>)
    ensures r.Ok? <==> forall n :: n in kv && n <= iterations ==> kv[n]
    ensures r.Err? ==> r.error == WrongBody
    ensures r.Ok? ==> Increasing(r.value) && forall x :: x in r.value <==> 0 <= x <= iterations && x in kv
  {
    var observed: seq<int> := [];
    for n := 0 to iterations + 1
      invariant forall m :: m in kv && m < n ==> kv[m]
      invariant Increasing(observed) && forall x :: x in observed <==> 0 <= x < n && x in kv
    {
      if n in kv {
        if !kv[n] {
          return Err(WrongBody);
        }
        assert forall i :: 0 <= i < |observed| ==> observed[i] in observed;
        observed := observed + [n];
      }
    }
    return Ok(observed);
  }

  method ReadStream(n: nat, records: seq<(nat, bool)>) returns (r: Result<seq<int>, VerifyError>)
    ensures r.Ok? <==> AllFirst(records)
    ensures r.Err? ==> BlamesStream(r.error, records)
    ensures r.Ok? ==> |r.value| == |records| && forall i :: 0 <= i < |r.value| ==> r.value[i] == n
  {
    var observed: seq<int> := [];
    for i := 0 to |records|
      invariant forall j :: 0 <= j < i ==> records[j] == (0, true)
      invariant |observed| == i && forall j :: 0 <= j < i ==> observed[j] == n
    {
      if records[i].0 != 0 {
        return Err(UnexpectedOffset(records[i].0));
      }
      if !records[i].1 {
        return Err(WrongBody);
      }
      observed := observed + [n];
    }
    return Ok(observed);
  }

  lemma {:induction false} CopiesCount(values: seq<int>, n: int, m: int)
    requires forall i :: 0 <= i < |values| ==> values[i] == n
    ensures multiset(values)[m] == if m == n then |values| else 0
  {
    if values != [] {
      var k := |values| - 1;
      assert values == values[..k] + [values[k]];
      CopiesCount(values[..k], n, m);
    }
  }

  method ReadStreams(a: Answers, iterations: nat) returns (r: Result<seq<int>, VerifyError>)
    ensures r.Ok? <==> forall n: nat :: n <= iterations ==> AllFirst(StreamRecords(a, n))
    ensures r.Err? ==> exists n: nat :: n <= iterations && BlamesStream(r.error, StreamRecords(a, n))
    ensures r.Ok? ==> forall n: nat :: multiset(r.value)[n] == if n <= iterations then |StreamRecords(a, n)| else 0
    ensures r.Ok? ==> forall x :: x in r.value ==> x >= 0
  {
    var observed: seq<int> := [];
    for n := 0 to iterations + 1
      invariant forall m: nat :: m < n ==> AllFirst(StreamRecords(a, m))
      invariant forall m: nat :: multiset(observed)[m] == if m < n then |StreamRecords(a, m)| else 0
      invariant forall x :: x in observed ==> x >= 0
    {
      var copies := ReadStream(n, StreamRecords(a, n));
      if copies.Err? {
        return Err(copies.error);
      }
      forall m: nat ensures multiset(observed + copies.value)[m] == if m <= n then |StreamRecords(a, m)| else 0 {
        CopiesCount(copies.value, n, m);
        assert multiset(observed + copies.value) == multiset(observed) + multiset(copies.value);
      }
      observed := observed + copies.value;
    }
    return Ok(observed);
  }

  method ReadSchedule(entries: seq<(Option<nat>, bool)>, iterations: nat) returns (r: Result<seq<int>, VerifyError>)
    ensures r.Ok? <==> AllExpected(entries, iterations)
    ensures r.Err? ==>
              || (r.error == UnexpectedRoute && !Known(Routes(entries), iterations))
              || (r.error == WrongBody && exists i :: 0 <= i < |entries| && !entries[i].1)
    ensures r.Ok? ==> Lists(r.value, Routes(entries))
  {
    var observed: seq<int> := [];
    for i := 0 to |entries|
      invariant |observed| == i
      invariant forall j :: 0 <= j < i ==>
                  && entries[j].0.Some? && entries[j].0.value <= iterations && entries[j].1
                  && observed[j] == entries[j].0.value
    {
      var (sequence, expected) := entries[i];
      if sequence.None? || sequence.value > iterations {
        assert !(Routes(entries)[i].Some? && Routes(entries)[i].value <= iterations);
        return Err(UnexpectedRoute);
      }
      if !expected {
        return Err(WrongBody);
      }
      observed := observed + [sequence.value];
    }
    return Ok(observed);
  }

  /** Each list of the report holds every sequence as often as the verifier came across it. */
  ghost predicate Tells(report: Report, a: Answers, iterations: nat) {
    forall d: Domain :: d in report && TellsOf(report[d], a, iterations, d)
  }

  ghost predicate TellsOf(values: seq<Option<nat>>, a: Answers, iterations: nat, d: Domain) {
    && (forall i :: 0 <= i < |values| ==> values[i].Some?)
    && forall n: nat :: multiset(values)[Some(n)] == if n <= iterations then Found(a, d, n) else 0
  }

  lemma SortKeepsSigns(values: seq<int>)
    requires forall x :: x in values ==> x >= 0
    ensures forall x :: x in Sort(values) ==> x >= 0
  {
    SameElements(Sort(values), values);
    forall x | x in Sort(values) ensures x in values {
      assert x in ToSet(Sort(values));
    }
  }

  function Present(values: seq<int>): (r: seq<Option<nat>>)
    requires forall x :: x in values ==> x >= 0
    ensures Lists(values, r)
  {
    seq(|values|, i requires 0 <= i < |values| => assert values[i] in values; Some(values[i] as nat))
  }

  /** The observed values, sorted, as the report lists them. */
  function SortedReport(values: seq<int>): seq<Option<nat>>
    requires forall x :: x in values ==> x >= 0
  {
    SortKeepsSigns(values);
    Present(Sort(values))
  }

  lemma ReportTells(values: seq<int>, a: Answers, iterations: nat, d: Domain)
    requires forall x :: x in values ==> x >= 0
    requires forall n: nat :: multiset(values)[n] == if n <= iterations then Found(a, d, n) else 0
    ensures TellsOf(SortedReport(values), a, iterations, d)
  {
    SortKeepsSigns(values);
    forall n: nat ensures multiset(SortedReport(values))[Some(n)] == multiset(values)[n] {
      ListsCount(Sort(values), SortedReport(values), n);
    }
  }

  lemma ListedTells(values: seq<int>, items: seq<Option<nat>>, iterations: nat)
    requires Lists(values, items) && Known(items, iterations)
    ensures forall x :: x in values ==> x >= 0
    ensures forall n: nat :: multiset(values)[n] == if n <= iterations then multiset(items)[Some(n)] else 0
  {
    forall n: nat ensures multiset(values)[n] == if n <= iterations then multiset(items)[Some(n)] else 0 {
      ListsCount(values, items, n);
      if n > iterations {
        assert Some(n) !in items;
      }
    }
  }

  lemma KvTells(values: seq<int>, a: Answers, iterations: nat)
    requires Increasing(values) && forall x :: x in values <==> 0 <= x <= iterations && x in a.kv
    ensures forall n: nat :: multiset(values)[n] == if n <= iterations then Found(a, Kv, n) else 0
  {
    forall n: nat ensures multiset(values)[n] == if n <= iterations then Found(a, Kv, n) else 0 {
      DistinctMultiset(values, n);
    }
  }

  method ObserveQueue(a: Answers, iterations: nat) returns (r: Result<seq<Option<nat>>, VerifyError>)
    ensures r.Ok? <==> Ends(a.queue) && Known(Polled(a.queue), iterations)
    ensures r.Err? ==> Blames(r.error, a, iterations)
    ensures r.Ok? ==> TellsOf(r.value, a, iterations, Queue)
  {
    var read := ReadQueue(a.queue, iterations);
    if read.Err? {
      return Err(read.error);
    }
    ListedTells(read.value, Polled(a.queue), iterations);
    ReportTells(read.value, a, iterations, Queue);
    return Ok(SortedReport(read.value));
  }

  method ObserveKv(a: Answers, iterations: nat) returns (r: Result<seq<Option<nat>>, VerifyError>)
    ensures r.Ok? <==> forall n :: n in a.kv && n <= iterations ==> a.kv[n]
    ensures r.Err? ==> Blames(r.error, a, iterations)
    ensures r.Ok? ==> TellsOf(r.value, a, iterations, Kv)
  {
    var read := ReadKv(a.kv, iterations);
    if read.Err? {
      return Err(read.error);
    }
    KvTells(read.value, a, iterations);
    ReportTells(read.value, a, iterations, Kv);
    return Ok(SortedReport(read.value));
  }

  method ObserveStreams(a: Answers, iterations: nat) returns (r: Result<seq<Option<nat>>, VerifyError>)
    ensures r.Ok? <==> forall n: nat :: n <= iterations ==> AllFirst(StreamRecords(a, n))
    ensures r.Err? ==> Blames(r.error, a, iterations)
    ensures r.Ok? ==> TellsOf(r.value, a, iterations, Stream)
  {
    var read := ReadStreams(a, iterations);
    if read.Err? {
      return Err(read.error);
    }
    ReportTells(read.value, a, iterations, Stream);
    return Ok(SortedReport(read.value));
  }

  method ObserveSchedule(a: Answers, iterations: nat) returns (r: Result<seq<Option<nat>>, VerifyError>)
    ensures r.Ok? <==> AllExpected(Flatten(a.schedule), iterations)
    ensures r.Err? ==> Blames(r.error, a, iterations)
    ensures r.Ok? ==> TellsOf(r.value, a, iterations, Schedule)
  {
    var read := ReadSchedule(Flatten(a.schedule), iterations);
    if read.Err? {
      return Err(read.error);
    }
    ListedTells(read.value, Routes(Flatten(a.schedule)), iterations);
    ReportTells(read.value, a, iterations, Schedule);
    return Ok(SortedReport(read.value));
  }

  /** The queue is drained, every key and stream of the run is read, and the schedule entries are listed. */
  method VerifyState(a: Answers, iterations: nat) returns (r: Result<Report, VerifyError>)
    ensures r.Ok? <==> ReadsThrough(a, iterations)
    ensures r.Err? ==> Blames(r.error, a, iterations)
    ensures r.Ok? ==> Tells(r.value, a, iterations)
  {
    var queue := ObserveQueue(a, iterations);
    if queue.Err? {
      return Err(queue.error);
    }
    var kv := ObserveKv(a, iterations);
    if kv.Err? {
      return Err(kv.error);
    }
    var stream := ObserveStreams(a, iterations);
    if stream.Err? {
      return Err(stream.error);
    }
    var schedule := ObserveSchedule(a, iterations);
    if schedule.Err? {
      return Err(schedule.error);
    }
    AllTell(queue.value, kv.value, stream.value, schedule.value, a, iterations);
    return Ok(map[Queue := queue.value, Kv := kv.value, Stream := stream.value, Schedule := schedule.value]);
  }

  lemma AllTell(
    queue: seq<Option<nat>>, kv: seq<Option<nat>>, stream: seq<Option<nat>>, schedule: seq<Option<nat>>,
    a: Answers, iterations: nat
  )
    requires TellsOf(queue, a, iterations, Queue) && TellsOf(kv, a, iterations, Kv)
    requires TellsOf(stream, a, iterations, Stream) && TellsOf(schedule, a, iterations, Schedule)
    ensures Tells(map[Queue := queue, Kv := kv, Stream := stream, Schedule := schedule], a, iterations)
  {
    var report := map[Queue := queue, Kv := kv, Stream := stream, Schedule := schedule];
    forall d: Domain ensures d in report && TellsOf(report[d], a, iterations, d) {
      match d
      case Queue =>
      case Kv =>
      case Stream =>
      case Schedule =>
    }
  }
}
