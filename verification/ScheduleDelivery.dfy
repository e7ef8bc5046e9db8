/**
 * Schedule delivery: what a subscriber counts while notifications come in
 * (src/workloads/schedule-delivery.ts), and the analysis of all subscribers' logs
 * (src/orchestration/schedule-delivery.ts).
 */
module ScheduleDelivery {
  import opened Wrappers
  import opened Sequences

  datatype Kind = Broadcast | Single | Cancelled

  /** A record of a subscriber's log; kind and sequence are None where they do not parse. */
  datatype Record =
    | Received(kind: Option<Kind>, sequence: Option<nat>)
    | Invalid
    | ClientEvent(saturated: bool)

  const TOLERANCE_MS := 1_000

  // ---------- the subscriber ----------

  /** A notification: the kind and sequence of its route, when the route parses and the payload is the expected one. */
  datatype Notification = Notification(identity: Option<(Kind, nat)>, receivedAtMs: int)

  datatype Tally = Tally(
    seen: set<(Kind, nat)>,
    broadcast: nat,
    single: nat,
    cancelled: nat,
    duplicates: nat,
    invalid: nat,
    maxLatenessMs: nat,
    log: seq<Record>
  )

  function NoTally(): Tally {
    Tally({}, 0, 0, 0, 0, 0, 0, [])
  }

  predicate Valid(n: Notification, operations: nat, fireAtMs: int) {
    && n.identity.Some? && n.identity.value.1 < operations
    && 0 <= n.receivedAtMs - fireAtMs <= TOLERANCE_MS
  }

  function Count(t: Tally, kind: Kind): Tally {
    match kind
    case Broadcast => t.(broadcast := t.broadcast + 1)
    case Single => t.(single := t.single + 1)
    case Cancelled => t.(cancelled := t.cancelled + 1)
  }

  function LoggedBy(n: Notification, operations: nat, fireAtMs: int): Record {
    if !Valid(n, operations, fireAtMs) then Invalid
    else Received(Some(n.identity.value.0), Some(n.identity.value.1))
  }

  function AfterNotification(t: Tally, n: Notification, operations: nat, fireAtMs: int): Tally {
    var logged := t.(log := t.log + [LoggedBy(n, operations, fireAtMs)]);
    if !Valid(n, operations, fireAtMs) then logged.(invalid := t.invalid + 1)
    else
      var key, lateness := n.identity.value, n.receivedAtMs - fireAtMs;
      var timed := logged.(maxLatenessMs := if lateness > t.maxLatenessMs then lateness else t.maxLatenessMs);
      if key in t.seen then timed.(duplicates := t.duplicates + 1)
      else Count(timed, key.0).(seen := t.seen + {key})
  }

  class Subscriber {
    const operations: nat
    const fireAtMs: int
    var seen: set<(Kind, nat)>
    var broadcast: nat
    var single: nat
    var cancelled: nat
    var duplicates: nat
    var invalid: nat
    var maxLatenessMs: nat
    var log: seq<Record>

    constructor (operations: nat, fireAtMs: int)
      ensures this.operations == operations && this.fireAtMs == fireAtMs && State() == NoTally()
    {
      this.operations, this.fireAtMs := operations, fireAtMs;
      seen, log := {}, [];
      broadcast, single, cancelled, duplicates, invalid, maxLatenessMs := 0, 0, 0, 0, 0, 0;
    }

    function State(): Tally
      reads this
    {
      Tally(seen, broadcast, single, cancelled, duplicates, invalid, maxLatenessMs, log)
    }

    method Handle(n: Notification)
      modifies this
      ensures State() == AfterNotification(old(State()), n, operations, fireAtMs)
    {
      var lateness := n.receivedAtMs - fireAtMs;
      if n.identity.None? || n.identity.value.1 >= operations || lateness < 0 || lateness > TOLERANCE_MS {
        invalid := invalid + 1;
        log := log + [Invalid];
        return;
      }
      var (kind, sequence) := n.identity.value;
      if lateness > maxLatenessMs {
        maxLatenessMs := lateness;
      }
      if (kind, sequence) in seen {
        duplicates := duplicates + 1;
      } else {
        seen := seen + {(kind, sequence)};
        match kind {
          case Broadcast => broadcast := broadcast + 1;
          case Single => single := single + 1;
          case Cancelled => cancelled := cancelled + 1;
        }
      }
      log := log + [Received(Some(kind), Some(sequence))];
    }
  }

  // ---------- tallies agree with the records ----------

  /** The sequences received of one kind, in log order. */
  function Listed(records: seq<Record>, kind: Kind): seq<int> {
    if records == [] then []
    else
      var front, last := Listed(records[..|records| - 1], kind), records[|records| - 1];
      if last.Received? && last.kind == Some(kind) && last.sequence.Some? then front + [last.sequence.value] else front
  }

  lemma ListedNext(records: seq<Record>, r: Record, kind: Kind)
    ensures Listed(records + [r], kind)
         == Listed(records, kind)
            + (if r.Received? && r.kind == Some(kind) && r.sequence.Some? then [r.sequence.value as int] else [])
  {
    assert (records + [r])[..|records|] == records;
  }

  function CountOf(t: Tally, kind: Kind): nat {
    match kind
    case Broadcast => t.broadcast
    case Single => t.single
    case Cancelled => t.cancelled
  }

  /** The tally of one kind: the messages seen, the sequences recorded and the count. */
  ghost predicate KindAgrees(seen: set<(Kind, nat)>, listed: seq<int>, count: nat, operations: nat, kind: Kind) {
    && (forall x :: x in listed ==> 0 <= x < operations)
    && (forall n: nat :: (kind, n) in seen <==> n in listed)
    && count == |ToSet(listed)|
  }

  ghost predicate KindInv(t: Tally, operations: nat, kind: Kind) {
    KindAgrees(t.seen, Listed(t.log, kind), CountOf(t, kind), operations, kind)
  }

  lemma KindSeen(seen: set<(Kind, nat)>, listed: seq<int>, count: nat, operations: nat, kind: Kind, x: nat)
    requires KindAgrees(seen, listed, count, operations, kind) && x < operations
    ensures (kind, x) in seen ==> KindAgrees(seen, listed + [x], count, operations, kind)
    ensures (kind, x) !in seen ==> KindAgrees(seen + {(kind, x)}, listed + [x], count + 1, operations, kind)
  {
    ToSetAppend(listed, x);
    if x in listed {
      assert ToSet(listed + [x]) == ToSet(listed);
    }
  }

  function InvalidRecords(records: seq<Record>): nat {
    if records == [] then 0
    else InvalidRecords(records[..|records| - 1]) + (if records[|records| - 1].Invalid? then 1 else 0)
  }

  ghost predicate TallyInv(t: Tally, operations: nat) {
    && KindInv(t, operations, Broadcast) && KindInv(t, operations, Single) && KindInv(t, operations, Cancelled)
    && t.broadcast + t.single + t.cancelled + t.duplicates == ReceivedRecords(t.log)
    && t.invalid == InvalidRecords(t.log)
  }

  /** What a notification does to the log, the messages seen and the count of one kind. */
  lemma NotificationEffect(t: Tally, n: Notification, operations: nat, fireAtMs: int, kind: Kind)
    ensures var u := AfterNotification(t, n, operations, fireAtMs);
            && u.log == t.log + [LoggedBy(n, operations, fireAtMs)]
            && var first := Valid(n, operations, fireAtMs) && n.identity.value !in t.seen;
            && u.seen == (if first then t.seen + {n.identity.value} else t.seen)
            && CountOf(u, kind) == CountOf(t, kind) + if first && n.identity.value.0 == kind then 1 else 0
  {
  }

  lemma OtherKind(seen: set<(Kind, nat)>, listed: seq<int>, count: nat, operations: nat, kind: Kind, key: (Kind, nat))
    requires KindAgrees(seen, listed, count, operations, kind) && key.0 != kind
    ensures KindAgrees(seen + {key}, listed, count, operations, kind)
  {
  }

  lemma {:induction false} KindKeeps(t: Tally, n: Notification, operations: nat, fireAtMs: int, kind: Kind)
    requires KindInv(t, operations, kind)
    ensures KindInv(AfterNotification(t, n, operations, fireAtMs), operations, kind)
  {
    var listed, count := Listed(t.log, kind), CountOf(t, kind);
    NotificationEffect(t, n, operations, fireAtMs, kind);
    ListedNext(t.log, LoggedBy(n, operations, fireAtMs), kind);
    if Valid(n, operations, fireAtMs) {
      var key := n.identity.value;
      if key.0 == kind {
        KindSeen(t.seen, listed, count, operations, kind, key.1);
      } else {
        OtherKind(t.seen, listed, count, operations, kind, key);
        assert listed + [] == listed;
      }
    } else {
      assert listed + [] == listed;
    }
  }

  function ReceivedRecords(records: seq<Record>): nat {
    |Listed(records, Broadcast)| + |Listed(records, Single)| + |Listed(records, Cancelled)|
  }

  lemma RecordsNext(records: seq<Record>, n: Notification, operations: nat, fireAtMs: int)
    ensures var r := LoggedBy(n, operations, fireAtMs);
            && ReceivedRecords(records + [r]) == ReceivedRecords(records) + (if r.Received? then 1 else 0)
            && InvalidRecords(records + [r]) == InvalidRecords(records) + (if r.Invalid? then 1 else 0)
  {
    var r := LoggedBy(n, operations, fireAtMs);
    assert (records + [r])[..|records|] == records;
    ListedNext(records, r, Broadcast);
    ListedNext(records, r, Single);
    ListedNext(records, r, Cancelled);
    if r.Received? {
      match r.kind.value
      case Broadcast =>
      case Single =>
      case Cancelled =>
    }
  }

  lemma CountsNext(t: Tally, n: Notification, operations: nat, fireAtMs: int)
    ensures var r, u := LoggedBy(n, operations, fireAtMs), AfterNotification(t, n, operations, fireAtMs);
            && u.log == t.log + [r]
            && u.broadcast + u.single + u.cancelled + u.duplicates
               == t.broadcast + t.single + t.cancelled + t.duplicates + (if r.Received? then 1 else 0)
            && u.invalid == t.invalid + (if r.Invalid? then 1 else 0)
  {
  }

  lemma NotificationKeeps(t: Tally, n: Notification, operations: nat, fireAtMs: int)
    requires TallyInv(t, operations)
    ensures TallyInv(AfterNotification(t, n, operations, fireAtMs), operations)
  {
    KindKeeps(t, n, operations, fireAtMs, Broadcast);
    KindKeeps(t, n, operations, fireAtMs, Single);
    KindKeeps(t, n, operations, fireAtMs, Cancelled);
    RecordsNext(t.log, n, operations, fireAtMs);
    CountsNext(t, n, operations, fireAtMs);
  }

  /** What a subscriber has counted after a sequence of notifications. */
  function Handled(notifications: seq<Notification>, operations: nat, fireAtMs: int): Tally {
    if notifications == [] then NoTally()
    else
      AfterNotification(Handled(notifications[..|notifications| - 1], operations, fireAtMs),
                        notifications[|notifications| - 1], operations, fireAtMs)
  }

  lemma {:induction false} HandledAgrees(notifications: seq<Notification>, operations: nat, fireAtMs: int)
    ensures TallyInv(Handled(notifications, operations, fireAtMs), operations)
  {
    if notifications != [] {
      HandledAgrees(notifications[..|notifications| - 1], operations, fireAtMs);
      NotificationKeeps(Handled(notifications[..|notifications| - 1], operations, fireAtMs),
                        notifications[|notifications| - 1], operations, fireAtMs);
    }
  }

  /** A notification the subscriber cannot place: not identified, of no planned sequence, too early or over a second late. */
  predicate Misplaced(n: Notification, operations: nat, fireAtMs: int) {
    || n.identity.None?
    || n.identity.value.1 >= operations
    || n.receivedAtMs < fireAtMs
    || n.receivedAtMs > fireAtMs + 1_000
  }

  function CountMisplaced(notifications: seq<Notification>, operations: nat, fireAtMs: int): nat {
    if notifications == [] then 0
    else
      CountMisplaced(notifications[..|notifications| - 1], operations, fireAtMs)
      + if Misplaced(notifications[|notifications| - 1], operations, fireAtMs) then 1 else 0
  }

  /** The kinds and sequences of the notifications that could be placed, in order. */
  function Placed(notifications: seq<Notification>, operations: nat, fireAtMs: int): seq<(Kind, nat)> {
    if notifications == [] then []
    else
      var front, last := Placed(notifications[..|notifications| - 1], operations, fireAtMs), notifications[|notifications| - 1];
      if Misplaced(last, operations, fireAtMs) then front else front + [last.identity.value]
  }

  /** The greatest lateness of a placed notification, zero if there was none. */
  ghost predicate IsMaxLateness(max: nat, notifications: seq<Notification>, operations: nat, fireAtMs: int) {
    && (forall i :: 0 <= i < |notifications| && !Misplaced(notifications[i], operations, fireAtMs) ==>
          notifications[i].receivedAtMs - fireAtMs <= max)
    && (max == 0 || exists i :: 0 <= i < |notifications| && !Misplaced(notifications[i], operations, fireAtMs)
                                && notifications[i].receivedAtMs - fireAtMs == max)
  }

  lemma MaxLatenessNext(max: nat, ns: seq<Notification>, n: Notification, operations: nat, fireAtMs: int)
    requires IsMaxLateness(max, ns, operations, fireAtMs)
    ensures var lateness := n.receivedAtMs - fireAtMs;
            IsMaxLateness(if !Misplaced(n, operations, fireAtMs) && lateness > max then lateness else max,
                          ns + [n], operations, fireAtMs)
  {
    var longer := ns + [n];
    assert longer[|ns|] == n;
    if i :| 0 <= i < |ns| && !Misplaced(ns[i], operations, fireAtMs) && ns[i].receivedAtMs - fireAtMs == max {
      assert longer[i] == ns[i];
    }
  }

  /** The tally means what the notifications were. */
  ghost predicate Means(t: Tally, misplaced: nat, placed: seq<(Kind, nat)>) {
    && t.invalid == misplaced
    && t.seen == ToSet(placed)
    && t.duplicates == |placed| - |ToSet(placed)|
  }

  lemma MeansNext(t: Tally, misplaced: nat, placed: seq<(Kind, nat)>, n: Notification, operations: nat, fireAtMs: int)
    requires Means(t, misplaced, placed)
    ensures var u := AfterNotification(t, n, operations, fireAtMs);
            if Misplaced(n, operations, fireAtMs) then Means(u, misplaced + 1, placed)
            else Means(u, misplaced, placed + [n.identity.value])
  {
    if !Misplaced(n, operations, fireAtMs) {
      var key := n.identity.value;
      ToSetAppend(placed, key);
      if key in t.seen {
        assert ToSet(placed + [key]) == ToSet(placed);
      }
    }
  }

  lemma LatenessNext(t: Tally, n: Notification, operations: nat, fireAtMs: int)
    ensures var lateness := n.receivedAtMs - fireAtMs;
            AfterNotification(t, n, operations, fireAtMs).maxLatenessMs
            == if !Misplaced(n, operations, fireAtMs) && lateness > t.maxLatenessMs then lateness else t.maxLatenessMs
  {
  }

  /**
   * After any notifications: those that could not be placed are the invalid ones, the others are seen,
   * each repeat is a duplicate, and the lateness is the greatest of theirs.
   */
  lemma {:induction false} HandledMeans(notifications: seq<Notification>, operations: nat, fireAtMs: int)
    ensures var t, placed := Handled(notifications, operations, fireAtMs), Placed(notifications, operations, fireAtMs);
            && Means(t, CountMisplaced(notifications, operations, fireAtMs), placed)
            && IsMaxLateness(t.maxLatenessMs, notifications, operations, fireAtMs)
  {
    if notifications == [] {
      assert ToSet(Placed([], operations, fireAtMs)) == {};
    } else {
      var front, last := notifications[..|notifications| - 1], notifications[|notifications| - 1];
      var t := Handled(front, operations, fireAtMs);
      assert notifications == front + [last];
      HandledMeans(front, operations, fireAtMs);
      MeansNext(t, CountMisplaced(front, operations, fireAtMs), Placed(front, operations, fireAtMs), last, operations, fireAtMs);
      LatenessNext(t, last, operations, fireAtMs);
      MaxLatenessNext(t.maxLatenessMs, front, last, operations, fireAtMs);
    }
  }

  /** A subscriber counts no duplicate exactly when no kind has a sequence recorded twice. */
  lemma NoDuplicates(t: Tally, operations: nat)
    requires TallyInv(t, operations)
    ensures t.duplicates == 0 <==>
              Distinct(Listed(t.log, Broadcast)) && Distinct(Listed(t.log, Single)) && Distinct(Listed(t.log, Cancelled))
  {
    SetSize(Listed(t.log, Broadcast));
    SetSize(Listed(t.log, Single));
    SetSize(Listed(t.log, Cancelled));
  }

  // ---------- the analysis ----------

  datatype Completion = Completion(broadcast: nat, single: nat, cancelled: nat, duplicates: nat, invalid: nat, maxLatenessMs: nat)

  /** One subscriber's log: its completion record, if there is one, and all other records. */
  datatype WorkerLog = WorkerLog(complete: Option<Completion>, records: seq<Record>)

  datatype Violations = Violations(count: nat, sample: seq<nat>)

  datatype Evidence = Evidence(
    replicas: nat,
    firesPerMode: nat,
    observed: Completion,
    subscriberBroadcast: seq<nat>,
    saturated: set<nat>,
    missingBroadcast: Violations,
    missingSingle: Violations,
    duplicateSingle: Violations
  )

  datatype ScheduleError = WrongReplicas(found: nat) | Incomplete(worker: nat) | BadSequence | BadKind

  /** The error of the analysis names what is wrong with the logs. */
  ghost predicate Blames(e: ScheduleError, logs: seq<WorkerLog>, fires: nat, expectedReplicas: nat) {
    match e
    case WrongReplicas(found) => found == |logs| != expectedReplicas
    case Incomplete(worker) => worker < |logs| && logs[worker].complete.None?
    case _ => exists w :: 0 <= w < |logs| && BlamesRecord(e, logs[w].records, fires)
  }

  ghost predicate BlamesRecord(e: ScheduleError, records: seq<Record>, fires: nat) {
    || (e.BadSequence? && exists i :: 0 <= i < |records| && HasBadSequence(records[i], fires))
    || (e.BadKind? && exists i :: 0 <= i < |records| && HasBadKind(records[i]))
  }

  predicate HasBadSequence(r: Record, fires: nat) {
    r.Received? && (r.sequence.None? || r.sequence.value >= fires)
  }

  predicate HasBadKind(r: Record) {
    r.Received? && r.kind.None?
  }

  predicate Readable(r: Record, fires: nat) {
    r.Received? ==> r.sequence.Some? && r.sequence.value < fires && r.kind.Some?
  }

  lemma ReadableIff(r: Record, fires: nat)
    ensures Readable(r, fires) <==> !HasBadSequence(r, fires) && !HasBadKind(r)
  {
  }

  ghost predicate AllReadable(records: seq<Record>, fires: nat) {
    forall i :: 0 <= i < |records| ==> Readable(records[i], fires)
  }

  function AddCompletion(a: Completion, b: Completion): Completion {
    Completion(a.broadcast + b.broadcast, a.single + b.single, a.cancelled + b.cancelled,
               a.duplicates + b.duplicates, a.invalid + b.invalid,
               if b.maxLatenessMs > a.maxLatenessMs then b.maxLatenessMs else a.maxLatenessMs)
  }

  /** The completions of all subscribers, added up. */
  function Observed(completions: seq<Completion>): Completion {
    if completions == [] then Completion(0, 0, 0, 0, 0, 0)
    else AddCompletion(Observed(completions[..|completions| - 1]), completions[|completions| - 1])
  }

  function SumOf(counts: seq<nat>): nat {
    if counts == [] then 0 else SumOf(counts[..|counts| - 1]) + counts[|counts| - 1]
  }

  function Column(completions: seq<Completion>, field: Completion -> nat): (r: seq<nat>)
    ensures |r| == |completions| && forall i :: 0 <= i < |r| ==> r[i] == field(completions[i])
  {
    seq(|completions|, i requires 0 <= i < |completions| => field(completions[i]))
  }

  function BroadcastsOf(c: Completion): nat { c.broadcast }
  function SinglesOf(c: Completion): nat { c.single }
  function CancelledOf(c: Completion): nat { c.cancelled }
  function DuplicatesOf(c: Completion): nat { c.duplicates }
  function InvalidOf(c: Completion): nat { c.invalid }

  /** Each number of the summary is the sum of its own column, and the lateness is the greatest of any subscriber. */
  lemma {:induction false} ObservedSums(completions: seq<Completion>)
    ensures var o := Observed(completions);
            && o.broadcast == SumOf(Column(completions, BroadcastsOf))
            && o.single == SumOf(Column(completions, SinglesOf))
            && o.cancelled == SumOf(Column(completions, CancelledOf))
            && o.duplicates == SumOf(Column(completions, DuplicatesOf))
            && o.invalid == SumOf(Column(completions, InvalidOf))
            && (forall i :: 0 <= i < |completions| ==> completions[i].maxLatenessMs <= o.maxLatenessMs)
            && (o.maxLatenessMs == 0 || exists i :: 0 <= i < |completions| && completions[i].maxLatenessMs == o.maxLatenessMs)
  {
    if completions != [] {
      var n := |completions| - 1;
      var front := completions[..n];
      ObservedSums(front);
      ColumnNext(completions, BroadcastsOf);
      ColumnNext(completions, SinglesOf);
      ColumnNext(completions, CancelledOf);
      ColumnNext(completions, DuplicatesOf);
      ColumnNext(completions, InvalidOf);
      if i :| 0 <= i < n && front[i].maxLatenessMs == Observed(front).maxLatenessMs {
        assert completions[i].maxLatenessMs == Observed(front).maxLatenessMs;
      }
      forall i | 0 <= i < n ensures completions[i].maxLatenessMs <= Observed(front).maxLatenessMs {
        assert completions[i] == front[i];
      }
    }
  }

  lemma ColumnNext(completions: seq<Completion>, field: Completion -> nat)
    requires completions != []
    ensures var n := |completions| - 1;
            SumOf(Column(completions, field)) == SumOf(Column(completions[..n], field)) + field(completions[n])
  {
    assert Column(completions, field)[..|completions| - 1] == Column(completions[..|completions| - 1], field);
  }

  function Completions(logs: seq<WorkerLog>): (r: seq<Completion>)
    requires forall w :: 0 <= w < |logs| ==> logs[w].complete.Some?
    ensures |r| == |logs| && forall w :: 0 <= w < |r| ==> r[w] == logs[w].complete.value
  {
    seq(|logs|, w requires 0 <= w < |logs| => logs[w].complete.value)
  }

  /** The subscribers that recorded a broadcast sequence. */
  function BroadcastWorkers(logs: seq<WorkerLog>, sequence: int): set<nat> {
    set w: nat | w < |logs| && sequence in Listed(logs[w].records, Broadcast)
  }

  /** The single deliveries recorded by all subscribers together. */
  function Singles(logs: seq<WorkerLog>): seq<int> {
    if logs == [] then [] else Singles(logs[..|logs| - 1]) + Listed(logs[|logs| - 1].records, Single)
  }

  function SingleCount(logs: seq<WorkerLog>, sequence: int): nat {
    multiset(Singles(logs))[sequence]
  }

  predicate Saturated(records: seq<Record>) {
    exists i :: 0 <= i < |records| && records[i] == ClientEvent(true)
  }

  function SaturatedWorkers(logs: seq<WorkerLog>): set<nat> {
    set w: nat | w < |logs| && Saturated(logs[w].records)
  }

  /** The sequences below `count` that fail a condition, in order. */
  function Failing(count: nat, holds: nat -> bool): (r: seq<nat>)
    ensures forall x: nat :: x in r <==> x < count && !holds(x)
  {
    if count == 0 then []
    else if holds(count - 1) then Failing(count - 1, holds)
    else Failing(count - 1, holds) + [count - 1]
  }

  method SequenceViolations(count: nat, holds: nat -> bool) returns (v: Violations)
    ensures v.count == |Failing(count, holds)|
    ensures v.sample == Failing(count, holds)[..if v.count < 20 then v.count else 20]
  {
    var violationCount := 0;
    var sample: seq<nat> := [];
    for sequence := 0 to count
      invariant violationCount == |Failing(sequence, holds)|
      invariant sample == Failing(sequence, holds)[..if violationCount < 20 then violationCount else 20]
    {
      if !holds(sequence) {
        violationCount := violationCount + 1;
        if |sample| < 20 {
          sample := sample + [sequence];
        }
      }
    }
    return Violations(violationCount, sample);
  }

  /** The number of failing sequences, and the first twenty of them in order. */
  ghost predicate Samples(v: Violations, failing: set<nat>) {
    && v.count == |failing|
    && |v.sample| == (if v.count < 20 then v.count else 20)
    && (forall i, j :: 0 <= i < j < |v.sample| ==> v.sample[i] < v.sample[j])
    && (forall x :: x in v.sample ==> x in failing)
    && forall x, y :: x in failing && x !in v.sample && y in v.sample ==> y < x
  }

  lemma {:induction false} FailingInOrder(count: nat, holds: nat -> bool)
    ensures forall i, j :: 0 <= i < j < |Failing(count, holds)| ==> Failing(count, holds)[i] < Failing(count, holds)[j]
  {
    if count > 0 {
      var front := Failing(count - 1, holds);
      FailingInOrder(count - 1, holds);
      forall i | 0 <= i < |front| ensures front[i] < count - 1 {
        assert front[i] in front;
      }
    }
  }

  lemma FailingSamples(count: nat, holds: nat -> bool, v: Violations, failing: set<nat>)
    requires v.count == |Failing(count, holds)|
    requires v.sample == Failing(count, holds)[..if v.count < 20 then v.count else 20]
    requires forall x: nat :: x in failing <==> x < count && !holds(x)
    ensures Samples(v, failing)
  {
    var all := Failing(count, holds);
    FailingInOrder(count, holds);
    SetSize(all);
    assert ToSet(all) == failing;
    forall x | x in v.sample ensures x in failing { assert x in all; }
    forall x, y | x in failing && x !in v.sample && y in v.sample ensures y < x {
      BeyondSample(all, |v.sample|, x, y);
    }
  }

  lemma BeyondSample(all: seq<nat>, n: nat, x: nat, y: nat)
    requires n <= |all| && forall i, j :: 0 <= i < j < |all| ==> all[i] < all[j]
    requires x in all && x !in all[..n] && y in all[..n]
    ensures y < x
  {
    assert forall k :: 0 <= k < n ==> all[k] in all[..n];
    var i :| 0 <= i < |all| && all[i] == x;
    var j :| 0 <= j < n && all[..n][j] == y;
  }

  lemma NoneFailing(count: nat, holds: nat -> bool)
    ensures |Failing(count, holds)| == 0 <==> forall x: nat :: x < count ==> holds(x)
  {
    if |Failing(count, holds)| != 0 {
      assert Failing(count, holds)[0] in Failing(count, holds);
    }
    if x: nat :| x < count && !holds(x) {
      assert x in Failing(count, holds);
    }
  }

  // ---------- the tables of the analysis ----------

  function WorkersAt(table: map<int, set<nat>>, sequence: int): set<nat> {
    if sequence in table then table[sequence] else {}
  }

  function CountAt(table: map<int, nat>, sequence: int): nat {
    if sequence in table then table[sequence] else 0
  }

  datatype Tables = Tables(broadcast: map<int, set<nat>>, single: map<int, nat>, saturated: set<nat>)

  /** What one log adds to the tables. */
  ghost predicate AddedAt(before: Tables, after: Tables, worker: nat, broadcast: seq<int>, single: seq<int>, s: int) {
    && WorkersAt(after.broadcast, s) == WorkersAt(before.broadcast, s) + (if s in broadcast then {worker} else {})
    && CountAt(after.single, s) == CountAt(before.single, s) + multiset(single)[s]
  }

  ghost predicate Added(before: Tables, after: Tables, worker: nat, records: seq<Record>) {
    && (forall s: int :: AddedAt(before, after, worker, Listed(records, Broadcast), Listed(records, Single), s))
    && after.saturated == before.saturated + (if Saturated(records) then {worker} else {})
  }

  function AddRecord(t: Tables, worker: nat, r: Record): Tables
    requires r.Received? ==> r.sequence.Some? && r.kind.Some?
  {
    if r == ClientEvent(true) then t.(saturated := t.saturated + {worker})
    else if r.Received? && r.kind == Some(Broadcast) then
      t.(broadcast := t.broadcast[r.sequence.value := WorkersAt(t.broadcast, r.sequence.value) + {worker}])
    else if r.Received? && r.kind == Some(Single) then
      t.(single := t.single[r.sequence.value := CountAt(t.single, r.sequence.value) + 1])
    else t
  }

  lemma SaturatedNext(records: seq<Record>, r: Record)
    ensures Saturated(records + [r]) <==> Saturated(records) || r == ClientEvent(true)
  {
    var longer := records + [r];
    assert longer[|records|] == r;
    if Saturated(records) {
      var i :| 0 <= i < |records| && records[i] == ClientEvent(true);
      assert longer[i] == ClientEvent(true);
    }
  }

  lemma AddedRecordAt(before: Tables, after: Tables, worker: nat, broadcast: seq<int>, single: seq<int>, r: Record, s: int)
    requires AddedAt(before, after, worker, broadcast, single, s)
    requires r.Received? ==> r.sequence.Some? && r.kind.Some?
    ensures AddedAt(before, AddRecord(after, worker, r), worker,
                    broadcast + (if r.Received? && r.kind == Some(Broadcast) then [r.sequence.value] else []),
                    single + (if r.Received? && r.kind == Some(Single) then [r.sequence.value] else []), s)
  {
  }

  lemma AddedNext(before: Tables, after: Tables, worker: nat, records: seq<Record>, r: Record)
    requires Added(before, after, worker, records)
    requires r.Received? ==> r.sequence.Some? && r.kind.Some?
    ensures Added(before, AddRecord(after, worker, r), worker, records + [r])
  {
    ListedNext(records, r, Broadcast);
    ListedNext(records, r, Single);
    SaturatedNext(records, r);
    forall s: int
      ensures AddedAt(before, AddRecord(after, worker, r), worker,
                      Listed(records + [r], Broadcast), Listed(records + [r], Single), s)
    {
      assert AddedAt(before, after, worker, Listed(records, Broadcast), Listed(records, Single), s);
      AddedRecordAt(before, after, worker, Listed(records, Broadcast), Listed(records, Single), r, s);
    }
  }

  method ReadRecords(before: Tables, worker: nat, records: seq<Record>, fires: nat) returns (r: Result<Tables, ScheduleError>)
    ensures r.Ok? <==> AllReadable(records, fires)
    ensures r.Ok? ==> Added(before, r.value, worker, records)
    ensures r.Err? ==> BlamesRecord(r.error, records, fires)
  {
    var tables := before;
    for i := 0 to |records|
      invariant AllReadable(records[..i], fires) && Added(before, tables, worker, records[..i])
    {
      var record := records[i];
      assert records[..i + 1] == records[..i] + [record];
      if record.Received? {
        if record.sequence.None? || record.sequence.value >= fires {
          assert !Readable(records[i], fires) && HasBadSequence(records[i], fires);
          return Err(BadSequence);
        }
        if record.kind.None? {
          assert !Readable(records[i], fires) && HasBadKind(records[i]);
          return Err(BadKind);
        }
      }
      AddedNext(before, tables, worker, records[..i], record);
      tables := AddRecord(tables, worker, record);
    }
    assert records[..|records|] == records;
    return Ok(tables);
  }

  /** The tables of several logs. */
  ghost predicate TablesAt(t: Tables, logs: seq<WorkerLog>, s: int) {
    WorkersAt(t.broadcast, s) == BroadcastWorkers(logs, s) && CountAt(t.single, s) == SingleCount(logs, s)
  }

  ghost predicate TablesOf(t: Tables, logs: seq<WorkerLog>) {
    && (forall s: int :: TablesAt(t, logs, s))
    && t.saturated == SaturatedWorkers(logs)
  }

  lemma SetsNext(logs: seq<WorkerLog>, log: WorkerLog, s: int)
    ensures BroadcastWorkers(logs + [log], s)
         == BroadcastWorkers(logs, s) + (if s in Listed(log.records, Broadcast) then {|logs|} else {})
    ensures SaturatedWorkers(logs + [log]) == SaturatedWorkers(logs) + (if Saturated(log.records) then {|logs|} else {})
  {
    var longer := logs + [log];
    assert longer[|logs|] == log && forall w :: 0 <= w < |logs| ==> longer[w] == logs[w];
  }

  lemma TablesNext(t: Tables, u: Tables, logs: seq<WorkerLog>, log: WorkerLog)
    requires TablesOf(t, logs) && Added(t, u, |logs|, log.records)
    ensures TablesOf(u, logs + [log])
  {
    SetsNext(logs, log, 0);
    forall s: int ensures TablesAt(u, logs + [log], s) {
      assert TablesAt(t, logs, s);
      assert AddedAt(t, u, |logs|, Listed(log.records, Broadcast), Listed(log.records, Single), s);
      SetsNext(logs, log, s);
    }
  }

  ghost predicate LogsReadable(logs: seq<WorkerLog>, fires: nat) {
    forall w :: 0 <= w < |logs| ==> logs[w].complete.Some? && AllReadable(logs[w].records, fires)
  }

  lemma LogsReadableNext(logs: seq<WorkerLog>, fires: nat, w: nat)
    requires w < |logs| && LogsReadable(logs[..w], fires)
    ensures logs[..w + 1] == logs[..w] + [logs[w]]
    ensures LogsReadable(logs[..w + 1], fires) <==> logs[w].complete.Some? && AllReadable(logs[w].records, fires)
    ensures LogsReadable(logs, fires) ==> logs[w].complete.Some? && AllReadable(logs[w].records, fires)
  {
    var next := logs[..w + 1];
    assert next[w] == logs[w] && forall v :: 0 <= v < w ==> next[v] == logs[..w][v];
  }

  /** The loop over the subscribers' logs. */
  method ReadLogs(logs: seq<WorkerLog>, fires: nat)
    returns (r: Result<Tables, ScheduleError>, completions: seq<Completion>, observed: Completion)
    ensures r.Ok? <==> LogsReadable(logs, fires)
    ensures r.Ok? ==> TablesOf(r.value, logs) && completions == Completions(logs) && observed == Observed(completions)
    ensures r.Err? ==> Blames(r.error, logs, fires, |logs|)
  {
    var tables := Tables(map[], map[], {});
    observed := Completion(0, 0, 0, 0, 0, 0);
    completions := [];
    for w := 0 to |logs|
      invariant LogsReadable(logs[..w], fires) && TablesOf(tables, logs[..w])
      invariant observed == Observed(completions)
      invariant |completions| == w && forall v :: 0 <= v < w ==> logs[v].complete == Some(completions[v])
    {
      LogsReadableNext(logs, fires, w);
      if logs[w].complete.None? {
        return Err(Incomplete(w)), completions, observed;
      }
      var added := ReadRecords(tables, w, logs[w].records, fires);
      if added.Err? {
        return Err(added.error), completions, observed;
      }
      TablesNext(tables, added.value, logs[..w], logs[w]);
      tables := added.value;
      observed := AddCompletion(observed, logs[w].complete.value);
      completions := completions + [logs[w].complete.value];
    }
    assert logs[..|logs|] == logs;
    return Ok(tables), completions, observed;
  }

  ghost predicate ViolationsOf(e: Evidence, logs: seq<WorkerLog>, fires: nat) {
    && (e.missingBroadcast.count == 0 <==> forall s: nat :: s < fires ==> |BroadcastWorkers(logs, s)| == |logs|)
    && (e.missingSingle.count == 0 <==> forall s: nat :: s < fires ==> SingleCount(logs, s) > 0)
    && (e.duplicateSingle.count == 0 <==> forall s: nat :: s < fires ==> SingleCount(logs, s) <= 1)
  }

  /** What the evidence reports of the logs. */
  ghost predicate EvidenceOf(e: Evidence, logs: seq<WorkerLog>, fires: nat)
    requires LogsReadable(logs, fires)
  {
    && e.replicas == |logs| && e.firesPerMode == fires
    && e.observed == Observed(Completions(logs))
    && e.subscriberBroadcast == Broadcasts(Completions(logs))
    && e.saturated == SaturatedWorkers(logs)
    && ViolationsOf(e, logs, fires)
  }

  method FindViolations(tables: Tables, fires: nat, replicas: nat)
    returns (missingBroadcast: Violations, missingSingle: Violations, duplicateSingle: Violations)
    ensures missingBroadcast.count == 0 <==> forall s: nat :: s < fires ==> |WorkersAt(tables.broadcast, s)| == replicas
    ensures missingSingle.count == 0 <==> forall s: nat :: s < fires ==> CountAt(tables.single, s) > 0
    ensures duplicateSingle.count == 0 <==> forall s: nat :: s < fires ==> CountAt(tables.single, s) <= 1
    ensures Samples(missingBroadcast, NotEverywhere(tables, fires, replicas))
    ensures Samples(missingSingle, Nowhere(tables, fires))
    ensures Samples(duplicateSingle, Repeated(tables, fires))
  {
    var everywhere := (s: nat) => |WorkersAt(tables.broadcast, s)| == replicas;
    var somewhere := (s: nat) => CountAt(tables.single, s) > 0;
    var atMostOnce := (s: nat) => CountAt(tables.single, s) <= 1;
    forall s: nat ensures everywhere(s) <==> |WorkersAt(tables.broadcast, s)| == replicas {
    }
    forall s: nat ensures somewhere(s) <==> CountAt(tables.single, s) > 0 {
    }
    forall s: nat ensures atMostOnce(s) <==> CountAt(tables.single, s) <= 1 {
    }
    missingBroadcast := SequenceViolations(fires, everywhere);
    missingSingle := SequenceViolations(fires, somewhere);
    duplicateSingle := SequenceViolations(fires, atMostOnce);
    NoneFailing(fires, everywhere);
    NoneFailing(fires, somewhere);
    NoneFailing(fires, atMostOnce);
    FailingSamples(fires, everywhere, missingBroadcast, NotEverywhere(tables, fires, replicas));
    FailingSamples(fires, somewhere, missingSingle, Nowhere(tables, fires));
    FailingSamples(fires, atMostOnce, duplicateSingle, Repeated(tables, fires));
  }

  function NotEverywhere(t: Tables, fires: nat, replicas: nat): set<nat> {
    set s: nat | s < fires && |WorkersAt(t.broadcast, s)| != replicas
  }

  function Nowhere(t: Tables, fires: nat): set<nat> {
    set s: nat | s < fires && CountAt(t.single, s) == 0
  }

  function Repeated(t: Tables, fires: nat): set<nat> {
    set s: nat | s < fires && CountAt(t.single, s) > 1
  }

  /** Broadcasts that some subscriber did not record, and single deliveries nobody or several recorded. */
  function MissedBroadcasts(logs: seq<WorkerLog>, fires: nat): set<nat> {
    set s: nat | s < fires && |BroadcastWorkers(logs, s)| != |logs|
  }

  function MissedSingles(logs: seq<WorkerLog>, fires: nat): set<nat> {
    set s: nat | s < fires && SingleCount(logs, s) == 0
  }

  function RepeatedSingles(logs: seq<WorkerLog>, fires: nat): set<nat> {
    set s: nat | s < fires && SingleCount(logs, s) > 1
  }

  /** The violations of the evidence, sequence by sequence. */
  ghost predicate ViolationsListed(e: Evidence, logs: seq<WorkerLog>, fires: nat) {
    && Samples(e.missingBroadcast, MissedBroadcasts(logs, fires))
    && Samples(e.missingSingle, MissedSingles(logs, fires))
    && Samples(e.duplicateSingle, RepeatedSingles(logs, fires))
  }

  lemma TablesList(t: Tables, logs: seq<WorkerLog>, fires: nat)
    requires TablesOf(t, logs)
    ensures NotEverywhere(t, fires, |logs|) == MissedBroadcasts(logs, fires)
    ensures Nowhere(t, fires) == MissedSingles(logs, fires)
    ensures Repeated(t, fires) == RepeatedSingles(logs, fires)
  {
    forall s: nat
      ensures WorkersAt(t.broadcast, s) == BroadcastWorkers(logs, s) && CountAt(t.single, s) == SingleCount(logs, s)
    {
      assert TablesAt(t, logs, s as int);
    }
  }

  function Broadcasts(completions: seq<Completion>): (r: seq<nat>)
    ensures |r| == |completions| && forall w :: 0 <= w < |r| ==> r[w] == completions[w].broadcast
  {
    seq(|completions|, w requires 0 <= w < |completions| => completions[w].broadcast)
  }

  method AnalyzeScheduleDeliveryLogs(logs: seq<WorkerLog>, firesPerMode: nat, expectedReplicas: nat)
    returns (r: Result<Evidence, ScheduleError>)
    ensures r.Ok? <==> |logs| == expectedReplicas && LogsReadable(logs, firesPerMode)
    ensures r.Ok? ==> EvidenceOf(r.value, logs, firesPerMode) && ViolationsListed(r.value, logs, firesPerMode)
    ensures r.Err? ==> Blames(r.error, logs, firesPerMode, expectedReplicas)
  {
    if |logs| != expectedReplicas {
      return Err(WrongReplicas(|logs|));
    }
    var tables, completions, observed := ReadLogs(logs, firesPerMode);
    if tables.Err? {
      return Err(tables.error);
    }
    var missingBroadcast, missingSingle, duplicateSingle := FindViolations(tables.value, firesPerMode, expectedReplicas);
    var e := Evidence(expectedReplicas, firesPerMode, observed, Broadcasts(completions), tables.value.saturated,
                      missingBroadcast, missingSingle, duplicateSingle);
    TablesTell(e, tables.value, logs, firesPerMode);
    TablesList(tables.value, logs, firesPerMode);
    return Ok(e);
  }

  lemma TablesTell(e: Evidence, t: Tables, logs: seq<WorkerLog>, fires: nat)
    requires TablesOf(t, logs)
    requires e.missingBroadcast.count == 0 <==> forall s: nat :: s < fires ==> |WorkersAt(t.broadcast, s)| == |logs|
    requires e.missingSingle.count == 0 <==> forall s: nat :: s < fires ==> CountAt(t.single, s) > 0
    requires e.duplicateSingle.count == 0 <==> forall s: nat :: s < fires ==> CountAt(t.single, s) <= 1
    ensures ViolationsOf(e, logs, fires)
  {
    forall s: nat ensures WorkersAt(t.broadcast, s) == BroadcastWorkers(logs, s) {
      assert TablesAt(t, logs, s);
    }
    forall s: nat ensures CountAt(t.single, s) == SingleCount(logs, s) {
      assert TablesAt(t, logs, s);
    }
  }

  // ---------- the verdict ----------

  predicate Delivered(e: Evidence) {
    && e.observed.broadcast == e.firesPerMode * e.replicas
    && e.observed.single == e.firesPerMode
    && e.observed.cancelled == 0
    && e.observed.duplicates == 0
    && e.observed.invalid == 0
    && e.missingBroadcast.count == 0
    && e.missingSingle.count == 0
    && e.duplicateSingle.count == 0
    && e.saturated == {}
    && forall w :: 0 <= w < |e.subscriberBroadcast| ==> e.subscriberBroadcast[w] == e.firesPerMode
  }

  /** A log a subscriber produced: its completion tells its tallies, its records are those it logged. */
  ghost predicate Produced(log: WorkerLog, t: Tally, fires: nat) {
    && TallyInv(t, fires) && log.complete.Some?
    && (forall k :: Listed(log.records, k) == Listed(t.log, k))
    && var c := log.complete.value;
       && c.broadcast == t.broadcast && c.single == t.single && c.cancelled == t.cancelled
       && c.duplicates == t.duplicates && c.invalid == t.invalid
  }

  /** Every broadcast reached this subscriber once, and nothing that was cancelled reached it. */
  ghost predicate SubscriberServed(records: seq<Record>, fires: nat) {
    multiset(Listed(records, Broadcast)) == multiset(Range(fires)) && Listed(records, Cancelled) == []
  }

  /** Besides, every single delivery reached one subscriber, once. */
  ghost predicate DeliveredOnce(logs: seq<WorkerLog>, fires: nat) {
    && (forall w :: 0 <= w < |logs| ==> SubscriberServed(logs[w].records, fires))
    && multiset(Singles(logs)) == multiset(Range(fires))
  }

  lemma {:induction false} ObservedZero(completions: seq<Completion>)
    ensures Observed(completions).cancelled == 0 <==> forall w :: 0 <= w < |completions| ==> completions[w].cancelled == 0
    ensures Observed(completions).duplicates == 0 <==> forall w :: 0 <= w < |completions| ==> completions[w].duplicates == 0
    ensures Observed(completions).invalid == 0 <==> forall w :: 0 <= w < |completions| ==> completions[w].invalid == 0
  {
    if completions != [] {
      ObservedZero(completions[..|completions| - 1]);
    }
  }

  lemma {:induction false} ObservedBroadcast(completions: seq<Completion>, fires: nat)
    requires forall w :: 0 <= w < |completions| ==> completions[w].broadcast == fires
    ensures Observed(completions).broadcast == fires * |completions|
  {
    if completions != [] {
      ObservedBroadcast(completions[..|completions| - 1], fires);
      assert fires * |completions| == fires * (|completions| - 1) + fires;
    }
  }

  lemma AllRecord(logs: seq<WorkerLog>, s: int)
    ensures |BroadcastWorkers(logs, s)| == |logs| <==>
              forall w :: 0 <= w < |logs| ==> s in Listed(logs[w].records, Broadcast)
  {
    var all := Below(|logs|);
    SubsetSize(BroadcastWorkers(logs, s), all);
    if |BroadcastWorkers(logs, s)| == |logs| {
      forall w: nat | w < |logs| ensures s in Listed(logs[w].records, Broadcast) {
        assert w in all;
      }
    }
    if forall w :: 0 <= w < |logs| ==> s in Listed(logs[w].records, Broadcast) {
      assert BroadcastWorkers(logs, s) == all;
    }
  }

  lemma {:induction false} SinglesInRange(logs: seq<WorkerLog>, fires: nat, x: int)
    requires forall w :: 0 <= w < |logs| ==> forall y :: y in Listed(logs[w].records, Single) ==> 0 <= y < fires
    requires x in Singles(logs)
    ensures 0 <= x < fires
  {
    var n := |logs| - 1;
    if x in Singles(logs[..n]) {
      SinglesInRange(logs[..n], fires, x);
    }
  }

  /** When no single delivery was recorded twice, the subscribers' counts add up to their number. */
  lemma {:induction false} SinglesCounted(logs: seq<WorkerLog>, completions: seq<Completion>)
    requires |completions| == |logs| && Distinct(Singles(logs))
    requires forall w :: 0 <= w < |logs| ==> completions[w].single == |ToSet(Listed(logs[w].records, Single))|
    ensures Observed(completions).single == |Singles(logs)|
    ensures forall w :: 0 <= w < |logs| ==> Distinct(Listed(logs[w].records, Single))
  {
    if logs != [] {
      var n := |logs| - 1;
      DistinctParts(Singles(logs[..n]), Listed(logs[n].records, Single));
      SinglesCounted(logs[..n], completions[..n]);
      SetSize(Listed(logs[n].records, Single));
    }
  }

  /** What the tallies of one subscriber say about its records. */
  lemma ServedIff(log: WorkerLog, t: Tally, fires: nat)
    requires Produced(log, t, fires)
    ensures SubscriberServed(log.records, fires) ==> t.broadcast == fires && t.cancelled == 0
    ensures SubscriberServed(log.records, fires) && Distinct(Listed(log.records, Single)) ==> t.duplicates == 0
    ensures t.duplicates == 0 && t.cancelled == 0
            && (forall s: nat :: s < fires ==> s in Listed(log.records, Broadcast))
            ==> SubscriberServed(log.records, fires)
  {
    var broadcast, cancelled := Listed(log.records, Broadcast), Listed(log.records, Cancelled);
    NoDuplicates(t, fires);
    PermutationIff(broadcast, fires);
    SetSize(broadcast);
    SetSize(cancelled);
    assert cancelled != [] ==> cancelled[0] in ToSet(cancelled);
    if t.duplicates == 0 && forall s: nat :: s < fires ==> s in broadcast {
      forall x ensures x in broadcast <==> 0 <= x < fires {
        if 0 <= x < fires {
          var s: nat := x;
          assert s in broadcast;
        }
      }
      NothingMissing(fires, broadcast);
    }
  }

  lemma {:induction false} SinglesOnceIff(logs: seq<WorkerLog>, tallies: seq<Tally>, fires: nat)
    requires |tallies| == |logs| && forall w :: 0 <= w < |logs| ==> Produced(logs[w], tallies[w], fires)
    ensures multiset(Singles(logs)) == multiset(Range(fires)) <==>
              && (forall s: nat :: s < fires ==> SingleCount(logs, s) > 0)
              && (forall s: nat :: s < fires ==> SingleCount(logs, s) <= 1)
  {
    var singles, range := Singles(logs), Range(fires);
    forall x ensures multiset(range)[x] == if 0 <= x < fires then 1 else 0 {
      DistinctMultiset(range, x);
      if 0 <= x < fires { assert range[x] == x; }
    }
    forall w | 0 <= w < |logs| ensures forall y :: y in Listed(logs[w].records, Single) ==> 0 <= y < fires {
      assert Produced(logs[w], tallies[w], fires);
    }
    forall x | x in singles ensures 0 <= x < fires {
      SinglesInRange(logs, fires, x);
    }
    forall s: nat ensures SingleCount(logs, s) == multiset(singles)[s as int] {
    }
    if (forall s: nat :: s < fires ==> SingleCount(logs, s) > 0) && (forall s: nat :: s < fires ==> SingleCount(logs, s) <= 1) {
      forall x ensures multiset(singles)[x] == multiset(range)[x] {
        if 0 <= x < fires {
          var s: nat := x;
          assert SingleCount(logs, s) > 0 && SingleCount(logs, s) <= 1;
        } else {
          assert x !in singles;
        }
      }
    }
  }

  lemma {:induction false} DeliveredMeansOnce(e: Evidence, logs: seq<WorkerLog>, tallies: seq<Tally>, fires: nat)
    requires LogsReadable(logs, fires) && EvidenceOf(e, logs, fires)
    requires |tallies| == |logs| && forall w :: 0 <= w < |logs| ==> Produced(logs[w], tallies[w], fires)
    requires Delivered(e)
    ensures DeliveredOnce(logs, fires) && forall w :: 0 <= w < |logs| ==> tallies[w].invalid == 0
  {
    ObservedZero(Completions(logs));
    SinglesOnceIff(logs, tallies, fires);
    forall w | 0 <= w < |logs| ensures SubscriberServed(logs[w].records, fires) && tallies[w].invalid == 0 {
      assert Produced(logs[w], tallies[w], fires);
      assert Completions(logs)[w] == logs[w].complete.value;
      forall s: nat | s < fires ensures s in Listed(logs[w].records, Broadcast) {
        AllRecord(logs, s);
      }
      ServedIff(logs[w], tallies[w], fires);
    }
  }

  lemma {:induction false} OnceMeansDelivered(e: Evidence, logs: seq<WorkerLog>, tallies: seq<Tally>, fires: nat)
    requires LogsReadable(logs, fires) && EvidenceOf(e, logs, fires)
    requires |tallies| == |logs| && forall w :: 0 <= w < |logs| ==> Produced(logs[w], tallies[w], fires)
    requires DeliveredOnce(logs, fires) && SaturatedWorkers(logs) == {}
    requires forall w :: 0 <= w < |logs| ==> tallies[w].invalid == 0
    ensures Delivered(e)
  {
    var completions := Completions(logs);
    SinglesOnceIff(logs, tallies, fires);
    PermutationIff(Singles(logs), fires);
    forall w | 0 <= w < |logs| ensures completions[w].single == |ToSet(Listed(logs[w].records, Single))| {
      assert Produced(logs[w], tallies[w], fires);
    }
    SinglesCounted(logs, completions);
    forall w | 0 <= w < |logs|
      ensures completions[w].broadcast == fires && completions[w].cancelled == 0
      ensures completions[w].duplicates == 0 && completions[w].invalid == 0
      ensures SubscriberServed(logs[w].records, fires)
    {
      assert Produced(logs[w], tallies[w], fires);
      ServedIff(logs[w], tallies[w], fires);
    }
    ObservedZero(completions);
    ObservedBroadcast(completions, fires);
    forall s: nat | s < fires ensures |BroadcastWorkers(logs, s)| == |logs| {
      forall w | 0 <= w < |logs| ensures s in Listed(logs[w].records, Broadcast) {
        assert SubscriberServed(logs[w].records, fires);
        PermutationIff(Listed(logs[w].records, Broadcast), fires);
      }
      AllRecord(logs, s);
    }
  }

  /** For logs that subscribers produced, the exact condition for the run to pass. */
  lemma DeliveredIff(e: Evidence, logs: seq<WorkerLog>, tallies: seq<Tally>, fires: nat)
    requires LogsReadable(logs, fires) && EvidenceOf(e, logs, fires)
    requires |tallies| == |logs| && forall w :: 0 <= w < |logs| ==> Produced(logs[w], tallies[w], fires)
    ensures Delivered(e) <==>
              && SaturatedWorkers(logs) == {}
              && (forall w :: 0 <= w < |logs| ==> tallies[w].invalid == 0)
              && DeliveredOnce(logs, fires)
  {
    if Delivered(e) {
      DeliveredMeansOnce(e, logs, tallies, fires);
    }
    if SaturatedWorkers(logs) == {} && (forall w :: 0 <= w < |logs| ==> tallies[w].invalid == 0) && DeliveredOnce(logs, fires) {
      OnceMeansDelivered(e, logs, tallies, fires);
    }
  }
}
