/**
 * The queue redelivery run: a consumer is killed with messages reserved, and drainers must recover every
 * message once (src/workloads/queue-redelivery.ts, src/orchestration/queue-redelivery.ts).
 */
module QueueRedelivery {
  import opened Wrappers
  import opened Sequences
  import Lanes

  datatype RedeliveryError =
    | Duplicates(count: int)
    | WrongCount(completed: nat)
    | LostSequence(sequence: int)
    | ReservationLost(sequence: int)

  // ---------- the oracle ----------

  /** The drainers recovered 0, ..., expected - 1 once each, in any order; the victim reserved only such messages. */
  ghost predicate Recovered(expected: nat, victim: seq<int>, recovered: seq<int>) {
    && multiset(recovered) == multiset(Range(expected))
    && forall i :: 0 <= i < |victim| ==> 0 <= victim[i] < expected
  }

  /** A rearrangement of all messages, in which nothing that the victim had reserved is missing. */
  lemma RecoveredIff(expected: nat, victim: seq<int>, recovered: seq<int>)
    ensures Recovered(expected, victim, recovered) <==>
              && Distinct(recovered) && |recovered| == expected
              && (forall x :: 0 <= x < expected ==> x in recovered)
              && forall x :: x in victim ==> x in recovered
  {
    PermutationIff(recovered, expected);
    if Distinct(recovered) && |recovered| == expected && forall x :: 0 <= x < expected ==> x in recovered {
      OnlyInRange(recovered, expected);
      assert forall i :: 0 <= i < |victim| ==> victim[i] in victim;
    }
  }

  /** The error says how many messages came twice, how many came, or which one did not. */
  ghost predicate Blames(e: RedeliveryError, expected: nat, victim: seq<int>, recovered: seq<int>) {
    match e
    case Duplicates(count) => count == |recovered| - |ToSet(recovered)| > 0
    case WrongCount(completed) => completed == |recovered| != expected
    case LostSequence(x) => 0 <= x < expected && x !in recovered
    case ReservationLost(x) => x in victim && x !in recovered
  }

  method AssertQueueRedelivery(expected: nat, victim: seq<int>, recovered: seq<int>) returns (error: Option<RedeliveryError>)
    ensures error.None? <==> Recovered(expected, victim, recovered)
    ensures error.Some? ==> Blames(error.value, expected, victim, recovered)
  {
    PermutationIff(recovered, expected);
    SetSize(recovered);
    var recoveredSet := ToSet(recovered);
    if |recoveredSet| != |recovered| {
      return Some(Duplicates(|recovered| - |recoveredSet|));
    }
    if |recovered| != expected {
      return Some(WrongCount(|recovered|));
    }
    for sequence := 0 to expected
      invariant forall x :: 0 <= x < sequence ==> x in recovered
    {
      if sequence !in recoveredSet {
        return Some(LostSequence(sequence));
      }
    }
    OnlyInRange(recovered, expected);
    for i := 0 to |victim|
      invariant forall j :: 0 <= j < i ==> 0 <= victim[j] < expected
    {
      if victim[i] !in recoveredSet {
        return Some(ReservationLost(victim[i]));
      }
    }
    return None;
  }

  // ---------- one drainer ----------

  const IDLE_DEADLINE_MS := 20_000

  /** A reply to a reservation, when it came in, and when the loop condition next looked at the clock. */
  datatype Reply = Reply(items: seq<int>, receivedAt: int, checkedAt: int)

  datatype DrainerResult = Complete(sequences: seq<int>) | SeenTwice(sequence: int) | Waiting

  function Items(replies: seq<Reply>): (r: seq<seq<int>>)
    ensures |r| == |replies| && forall i :: 0 <= i < |r| ==> r[i] == replies[i].items
  {
    seq(|replies|, i requires 0 <= i < |replies| => replies[i].items)
  }

  function Received(replies: seq<Reply>, n: nat): seq<int>
    requires n <= |replies|
  {
    Flatten(Items(replies)[..n])
  }

  /** The first of the empty replies that end the first `n`, if they end in one. */
  function IdleFrom(replies: seq<Reply>, n: nat): (k: Option<nat>)
    requires n <= |replies|
    ensures k.Some? ==> k.value < n
  {
    if n == 0 || replies[n - 1].items != [] then None
    else if IdleFrom(replies, n - 1).Some? then IdleFrom(replies, n - 1)
    else Some(n - 1)
  }

  /** The idle period begins with the reply after the last that brought something. */
  lemma {:induction false} IdleFromMeaning(replies: seq<Reply>, n: nat)
    requires n <= |replies|
    ensures IdleFrom(replies, n).None? <==> n == 0 || replies[n - 1].items != []
    ensures IdleFrom(replies, n).Some? ==>
              var k := IdleFrom(replies, n).value;
              && (forall j :: k <= j < n ==> replies[j].items == [])
              && (k == 0 || replies[k - 1].items != [])
  {
    if n > 0 {
      IdleFromMeaning(replies, n - 1);
    }
  }

  /** After `n` replies the drainer has seen nothing for its idle deadline. */
  predicate IdleExpired(replies: seq<Reply>, n: nat)
    requires n <= |replies|
  {
    var k := IdleFrom(replies, n);
    k.Some? && replies[n - 1].checkedAt - replies[k.value].receivedAt >= IDLE_DEADLINE_MS
  }

  /** Reply k is the first of the empty ones that end the first n. */
  ghost predicate BeginsIdle(replies: seq<Reply>, n: nat, k: int) {
    && 0 <= k < n <= |replies|
    && (forall j :: k <= j < n ==> replies[j].items == [])
    && (k == 0 || replies[k - 1].items != [])
  }

  lemma IdleBegins(replies: seq<Reply>, n: nat, k: int)
    requires BeginsIdle(replies, n, k)
    ensures IdleFrom(replies, n) == Some(k)
  {
    IdleFromMeaning(replies, n);
    assert replies[n - 1].items == [];
  }

  /** Twenty seconds lie between the first of the empty replies at the end and the last look at the clock. */
  lemma IdleExpiredIff(replies: seq<Reply>, n: nat)
    requires n <= |replies|
    ensures IdleExpired(replies, n) <==>
              exists k :: BeginsIdle(replies, n, k) && replies[n - 1].checkedAt - replies[k].receivedAt >= 20_000
  {
    IdleFromMeaning(replies, n);
    if IdleFrom(replies, n).Some? {
      assert BeginsIdle(replies, n, IdleFrom(replies, n).value);
    }
    forall k | BeginsIdle(replies, n, k) ensures IdleFrom(replies, n) == Some(k) {
      IdleBegins(replies, n, k);
    }
  }

  ghost predicate NotExpiredBefore(replies: seq<Reply>, n: nat)
    requires n <= |replies|
  {
    forall m :: 0 <= m < n ==> !IdleExpired(replies, m)
  }

  ghost predicate Draining(replies: seq<Reply>, n: nat)
    requires n <= |replies|
  {
    Distinct(Received(replies, n)) && NotExpiredBefore(replies, n)
  }

  method Drain(replies: seq<Reply>) returns (result: DrainerResult, used: nat)
    ensures result.Complete? ==>
              && used <= |replies| && Draining(replies, used) && IdleExpired(replies, used)
              && Increasing(result.sequences) && ToSet(result.sequences) == ToSet(Received(replies, used))
    ensures result.SeenTwice? ==>
              && 0 < used <= |replies| && Draining(replies, used - 1)
              && !IdleExpired(replies, used - 1) && !Distinct(Received(replies, used))
    ensures result.Waiting? ==> used == |replies| && Draining(replies, used) && !IdleExpired(replies, used)
  {
    var order: seq<int> := [];
    var idleSince: Option<nat> := None;
    used := 0;
    while idleSince.None? || replies[used - 1].checkedAt - replies[idleSince.value].receivedAt < IDLE_DEADLINE_MS
      invariant used <= |replies| && idleSince == IdleFrom(replies, used)
      invariant NotExpiredBefore(replies, used)
      invariant order == Received(replies, used) && Distinct(order)
      decreases |replies| - used
    {
      if used == |replies| {
        return Waiting, used;
      }
      var items := replies[used].items;
      used := used + 1;
      ReceivedNext(replies, used);
      if items == [] {
        idleSince := if idleSince.None? then Some(used - 1) else idleSince;
        continue;
      }
      idleSince := None;
      var duplicate;
      order, duplicate := SeeItems(order, items);
      if duplicate.Some? {
        return SeenTwice(duplicate.value), used;
      }
    }
    SortDistinct(order);
    return Complete(Sort(order)), used;
  }

  lemma ReceivedNext(replies: seq<Reply>, n: nat)
    requires 0 < n <= |replies|
    ensures Received(replies, n) == Received(replies, n - 1) + replies[n - 1].items
    ensures replies[n - 1].items == [] ==> Received(replies, n) == Received(replies, n - 1)
  {
    FlattenNext(Items(replies), n);
  }

  lemma {:induction false} SortDistinct(s: seq<int>)
    requires Distinct(s)
    ensures Increasing(Sort(s)) && ToSet(Sort(s)) == ToSet(s)
  {
    SameElements(Sort(s), s);
  }

  /** Sees each item of a batch, up to the first that was seen before. */
  method SeeItems(seen: seq<int>, items: seq<int>) returns (order: seq<int>, duplicate: Option<int>)
    requires Distinct(seen)
    ensures duplicate.None? <==> Distinct(seen + items)
    ensures duplicate.None? ==> order == seen + items
  {
    order := seen;
    for i := 0 to |items|
      invariant order == seen + items[..i] && Distinct(order)
    {
      ToSetAppend(order, items[i]);
      assert order + [items[i]] == seen + items[..i + 1];
      if items[i] in order {
        assert order + [items[i]] <= seen + items;
        assert !Distinct(order + [items[i]]);
        return order, Some(items[i]);
      }
      order := order + [items[i]];
    }
    assert items[..|items|] == items;
    return order, None;
  }

  // ---------- the whole run ----------

  /** The victim asks for half of the messages, at least one and at most 1024. */
  function VictimBatch(operations: nat): (r: nat)
    ensures 1 <= r <= 1024 && (operations > 0 ==> r <= operations)
    ensures 0 < operations <= 2048 ==> operations <= 2 * r <= operations + 1
    ensures operations > 2048 ==> r == 1024
  {
    var half := (operations + 1) / 2;
    var atLeastOne := if half < 1 then 1 else half;
    if atLeastOne > 1024 then 1024 else atLeastOne
  }

  datatype Phase = Running | Done | Failed

  datatype Drainer = Drainer(batch: seq<int>, seen: set<int>, phase: Phase)

  /** Messages ready in the queue, those the killed victim still holds, and the drainers. */
  datatype State = State(ready: set<int>, held: set<int>, drainers: seq<Drainer>)

  /** `Release` gives the victim's messages back; it can come late, or not at all. */
  datatype Event =
    | Release
    | Reserve(drainer: nat, items: seq<int>)
    | Take(drainer: nat)
    | Quit(drainer: nat)
    | Fail(drainer: nat)

  /** After the producer stored 0, ..., n - 1 and the victim reserved a batch and was killed. */
  function Start(operations: nat, victim: set<int>, drainers: nat): State {
    State(ToSet(Range(operations)) - victim, victim, seq(drainers, _ => Drainer([], {}, Running)))
  }

  /** The producer's lanes leave exactly these messages in the queue: a producer that ends well stored each once. */
  lemma ProducedAll(operations: nat, concurrency: nat, events: seq<Lanes.Event>)
    requires concurrency > 0 && Lanes.Run(Lanes.Initial(operations, concurrency), events).Some?
    requires var s := Lanes.Run(Lanes.Initial(operations, concurrency), events).value;
             Lanes.Terminal(s) && s.failed == [] && !s.aborted
    ensures var stored := Lanes.Run(Lanes.Initial(operations, concurrency), events).value.completed;
            && Distinct(stored)
            && forall drainers :: Start(operations, {}, drainers).ready == ToSet(stored)
  {
    var stored := Lanes.Run(Lanes.Initial(operations, concurrency), events).value.completed;
    Lanes.CompletesAllIff(operations, concurrency, events);
    SameElements(stored, Range(operations));
  }

  predicate Enabled(s: State, e: Event) {
    match e
    case Release => true
    case Reserve(i, items) =>
      && i < |s.drainers| && s.drainers[i].phase.Running? && s.drainers[i].batch == []
      && (forall j :: 0 <= j < |items| ==> items[j] in s.ready)
      && forall j, k :: 0 <= j < k < |items| ==> items[j] != items[k]
    case Take(i) => i < |s.drainers| && s.drainers[i].phase.Running? && s.drainers[i].batch != []
    case Quit(i) => i < |s.drainers| && s.drainers[i].phase.Running? && s.drainers[i].batch == []
    case Fail(i) => i < |s.drainers| && s.drainers[i].phase.Running?
  }

  function TakeItem(d: Drainer): Drainer
    requires d.batch != []
  {
    if d.batch[0] in d.seen then d.(phase := Failed)
    else Drainer(d.batch[1..], d.seen + {d.batch[0]}, Running)
  }

  function Next(s: State, e: Event): State
    requires Enabled(s, e)
  {
    match e
    case Release => State(s.ready + s.held, {}, s.drainers)
    case Reserve(i, items) =>
      s.(ready := s.ready - ToSet(items), drainers := s.drainers[i := s.drainers[i].(batch := items)])
    case Take(i) => s.(drainers := s.drainers[i := TakeItem(s.drainers[i])])
    case Quit(i) => s.(drainers := s.drainers[i := s.drainers[i].(phase := Done)])
    case Fail(i) => s.(drainers := s.drainers[i := s.drainers[i].(phase := Failed)])
  }

  function Run(start: State, events: seq<Event>): Option<State> {
    if events == [] then Some(start)
    else
      var before, e := Run(start, events[..|events| - 1]), events[|events| - 1];
      if before.Some? && Enabled(before.value, e) then Some(Next(before.value, e)) else None
  }

  function Owned(d: Drainer): set<int> {
    ToSet(d.batch) + d.seen
  }

  /** Every message is in exactly one place. */
  ghost predicate Partition(s: State, operations: nat) {
    && s.ready !! s.held
    && (forall x :: x in s.ready + s.held ==> 0 <= x < operations)
    && (forall i :: 0 <= i < |s.drainers| ==> DrainerInv(s.drainers[i], s, operations))
    && (forall i, j :: 0 <= i < j < |s.drainers| ==> Owned(s.drainers[i]) !! Owned(s.drainers[j]))
    && forall x :: 0 <= x < operations ==> x in s.ready + s.held || OwnedBySome(s, x)
  }

  ghost predicate DrainerInv(d: Drainer, s: State, operations: nat) {
    && Distinct(d.batch) && ToSet(d.batch) !! d.seen && (d.phase.Done? ==> d.batch == [])
    && Owned(d) !! s.ready + s.held
    && forall x :: x in Owned(d) ==> 0 <= x < operations
  }

  ghost predicate OwnedBySome(s: State, x: int) {
    exists i :: 0 <= i < |s.drainers| && x in Owned(s.drainers[i])
  }

  lemma StartPartition(operations: nat, victim: set<int>, drainers: nat)
    requires victim <= ToSet(Range(operations))
    ensures Partition(Start(operations, victim, drainers), operations)
  {
    forall x | 0 <= x < operations ensures x in ToSet(Range(operations)) {
      assert Range(operations)[x] == x;
    }
  }

  /** Replacing one drainer by one that owns the same, or owns some of what was ready. */
  lemma DrainerReplaced(s: State, t: State, i: nat, items: set<int>, operations: nat)
    requires Partition(s, operations) && i < |s.drainers| && |t.drainers| == |s.drainers|
    requires items <= s.ready && t.ready == s.ready - items && t.held == s.held
    requires t.drainers == s.drainers[i := t.drainers[i]] && Owned(t.drainers[i]) == Owned(s.drainers[i]) + items
    requires Distinct(t.drainers[i].batch) && ToSet(t.drainers[i].batch) !! t.drainers[i].seen
    requires t.drainers[i].phase.Done? ==> t.drainers[i].batch == []
    ensures Partition(t, operations)
  {
    forall j | 0 <= j < |t.drainers| ensures DrainerInv(t.drainers[j], t, operations) {
      assert DrainerInv(s.drainers[j], s, operations);
    }
    forall j, k | 0 <= j < k < |t.drainers| ensures Owned(t.drainers[j]) !! Owned(t.drainers[k]) {
      assert DrainerInv(s.drainers[j], s, operations) && DrainerInv(s.drainers[k], s, operations);
    }
    forall x | 0 <= x < operations ensures x in t.ready + t.held || OwnedBySome(t, x) {
      if x in items {
        assert x in Owned(t.drainers[i]);
      } else if x !in s.ready + s.held {
        assert OwnedBySome(s, x);
        var j :| 0 <= j < |s.drainers| && x in Owned(s.drainers[j]);
        assert x in Owned(t.drainers[j]);
      }
    }
  }

  lemma ReleaseKeeps(s: State, operations: nat)
    requires Partition(s, operations)
    ensures Partition(Next(s, Release), operations)
  {
    var t := Next(s, Release);
    assert t.ready + t.held == s.ready + s.held;
    forall i | 0 <= i < |t.drainers| ensures DrainerInv(t.drainers[i], t, operations) {
      assert DrainerInv(s.drainers[i], s, operations);
    }
    forall x | 0 <= x < operations ensures x in t.ready + t.held || OwnedBySome(t, x) {
      if x !in s.ready + s.held {
        assert OwnedBySome(s, x);
      }
    }
  }

  /** No step duplicates or loses a message, and no drainer ever sees one twice. */
  lemma StepKeeps(s: State, e: Event, operations: nat)
    requires Partition(s, operations) && Enabled(s, e)
    ensures Partition(Next(s, e), operations)
    ensures e.Take? ==> Next(s, e).drainers[e.drainer].phase.Running?
  {
    var t := Next(s, e);
    match e
    case Release => ReleaseKeeps(s, operations);
    case Reserve(i, items) =>
      assert DrainerInv(s.drainers[i], s, operations);
      DrainerReplaced(s, t, i, ToSet(items), operations);
    case Take(i) =>
      assert DrainerInv(s.drainers[i], s, operations);
      DrainerReplaced(s, t, i, {}, operations);
    case Quit(i) =>
      assert DrainerInv(s.drainers[i], s, operations);
      DrainerReplaced(s, t, i, {}, operations);
    case Fail(i) =>
      assert DrainerInv(s.drainers[i], s, operations);
      DrainerReplaced(s, t, i, {}, operations);
  }

  lemma {:induction false} RunKeeps(start: State, events: seq<Event>, operations: nat)
    requires Partition(start, operations) && Run(start, events).Some?
    ensures Partition(Run(start, events).value, operations)
    ensures |Run(start, events).value.drainers| == |start.drainers|
  {
    if events != [] {
      RunKeeps(start, events[..|events| - 1], operations);
      StepKeeps(Run(start, events[..|events| - 1]).value, events[|events| - 1], operations);
    }
  }

  // ---------- the verdict on a run ----------

  predicate AllDone(s: State) {
    forall i :: 0 <= i < |s.drainers| ==> s.drainers[i].phase.Done?
  }

  /** What the drainers log when they are done: each its own messages, sorted. */
  ghost predicate Reports(reports: seq<seq<int>>, s: State) {
    && |reports| == |s.drainers|
    && forall i :: 0 <= i < |reports| ==> Increasing(reports[i]) && ToSet(reports[i]) == s.drainers[i].seen
  }

  lemma {:induction false} FlattenDistinct(parts: seq<seq<int>>)
    requires forall i :: 0 <= i < |parts| ==> Distinct(parts[i])
    requires forall i, j :: 0 <= i < j < |parts| ==> ToSet(parts[i]) !! ToSet(parts[j])
    ensures Distinct(Flatten(parts))
  {
    if parts != [] {
      FlattenDistinct(parts[1..]);
      forall x | x in parts[0] ensures x !in Flatten(parts[1..]) {
        FlattenMember(parts[1..], x);
        assert x in ToSet(parts[0]);
        assert forall i :: 0 <= i < |parts[1..]| ==> ToSet(parts[0]) !! ToSet(parts[i + 1]) && parts[1..][i] == parts[i + 1];
      }
      DistinctConcat(parts[0], Flatten(parts[1..]));
    }
  }

  lemma ReportedMessages(s: State, reports: seq<seq<int>>, operations: nat)
    requires Partition(s, operations) && AllDone(s) && Reports(reports, s)
    ensures Distinct(Flatten(reports))
    ensures forall x :: x in Flatten(reports) <==> 0 <= x < operations && x !in s.ready + s.held
  {
    forall i | 0 <= i < |reports| ensures Distinct(reports[i]) && ToSet(reports[i]) == Owned(s.drainers[i]) {
      assert DrainerInv(s.drainers[i], s, operations);
    }
    FlattenDistinct(reports);
    forall x ensures x in Flatten(reports) <==> 0 <= x < operations && x !in s.ready + s.held {
      FlattenMember(reports, x);
      if x in Flatten(reports) {
        var i :| 0 <= i < |reports| && x in reports[i];
        assert x in ToSet(reports[i]);
        assert DrainerInv(s.drainers[i], s, operations);
      }
      if 0 <= x < operations && x !in s.ready + s.held {
        assert OwnedBySome(s, x);
        var i :| 0 <= i < |s.drainers| && x in Owned(s.drainers[i]);
        assert x in ToSet(reports[i]);
      }
    }
  }

  /**
   * When every drainer is done, the oracle accepts exactly when the queue is empty and the killed
   * victim holds nothing back: the drainers' messages then partition 0, ..., operations - 1.
   */
  lemma DrainedRunAcceptedIff(operations: nat, victim: seq<int>, drainers: nat, events: seq<Event>, reports: seq<seq<int>>)
    requires ToSet(victim) <= ToSet(Range(operations))
    requires var r := Run(Start(operations, ToSet(victim), drainers), events);
             r.Some? && AllDone(r.value) && Reports(reports, r.value)
    ensures var s := Run(Start(operations, ToSet(victim), drainers), events).value;
            Recovered(operations, victim, Flatten(reports)) <==> s.ready == {} && s.held == {}
  {
    var start := Start(operations, ToSet(victim), drainers);
    var s := Run(start, events).value;
    StartPartition(operations, ToSet(victim), drainers);
    RunKeeps(start, events, operations);
    ReportedMessages(s, reports, operations);
    VictimInRange(victim, operations);
    VerdictOnSet(operations, s.ready + s.held, Flatten(reports));
    assert s.ready + s.held == {} <==> s.ready == {} && s.held == {};
  }

  lemma VictimInRange(victim: seq<int>, operations: nat)
    requires ToSet(victim) <= ToSet(Range(operations))
    ensures forall i :: 0 <= i < |victim| ==> 0 <= victim[i] < operations
  {
    forall i | 0 <= i < |victim| ensures 0 <= victim[i] < operations {
      assert victim[i] in ToSet(victim);
    }
  }

  lemma VerdictOnSet(operations: nat, missing: set<int>, recovered: seq<int>)
    requires forall x :: x in missing ==> 0 <= x < operations
    requires Distinct(recovered)
    requires forall x :: x in recovered <==> 0 <= x < operations && x !in missing
    ensures multiset(recovered) == multiset(Range(operations)) <==> missing == {}
  {
    PermutationIff(recovered, operations);
    if missing == {} {
      NothingMissing(operations, recovered);
    } else {
      var x := Element(missing);
      assert x !in recovered;
    }
  }

  /** The broker answers with nothing only when nothing is ready. */
  ghost predicate HonestlyEmpty(start: State, events: seq<Event>) {
    forall n :: 0 <= n < |events| && events[n].Reserve? && events[n].items == [] && Run(start, events[..n]).Some? ==>
                Run(start, events[..n]).value.ready == {}
  }

  /** A drainer quits after an empty reply that came after the release of the victim's messages. */
  ghost predicate QuitsAfterRelease(events: seq<Event>) {
    forall n :: 0 <= n < |events| && events[n].Quit? ==> exists m :: LateEmptyReply(events, events[n].drainer, m, n)
  }

  ghost predicate LateEmptyReply(events: seq<Event>, drainer: nat, m: int, n: int) {
    0 <= m < n <= |events| && events[m] == Reserve(drainer, []) && Release in events[..m]
  }

  lemma {:induction false} ReleasedStays(start: State, events: seq<Event>)
    requires Run(start, events).Some? && Release in events
    ensures Run(start, events).value.held == {}
  {
    var front, last := events[..|events| - 1], events[|events| - 1];
    assert events == front + [last];
    if last != Release {
      ReleasedStays(start, front);
    }
  }

  lemma {:induction false} EmptyStaysEmpty(start: State, events: seq<Event>, n: nat)
    requires n <= |events| && Run(start, events).Some?
    requires Run(start, events[..n]).Some?
    requires Run(start, events[..n]).value.ready == {} && Run(start, events[..n]).value.held == {}
    ensures Run(start, events).value.ready == {} && Run(start, events).value.held == {}
    decreases |events|
  {
    if n < |events| {
      var front := events[..|events| - 1];
      assert front[..n] == events[..n];
      EmptyStaysEmpty(start, front, n);
    } else {
      assert events[..n] == events;
    }
  }

  lemma {:induction false} RunPrefix(start: State, events: seq<Event>, n: nat)
    requires n <= |events| && Run(start, events).Some?
    ensures Run(start, events[..n]).Some?
    decreases |events|
  {
    if n < |events| {
      var front := events[..|events| - 1];
      assert front[..n] == events[..n];
      RunPrefix(start, front, n);
    } else {
      assert events[..n] == events;
    }
  }

  lemma {:induction false} SomebodyQuit(start: State, events: seq<Event>, i: nat) returns (n: nat)
    requires Run(start, events).Some? && i < |start.drainers| && !start.drainers[i].phase.Done?
    requires i < |Run(start, events).value.drainers| && Run(start, events).value.drainers[i].phase.Done?
    ensures n < |events| && events[n].Quit?
  {
    var front := events[..|events| - 1];
    DrainersStay(start, front);
    if Run(start, front).value.drainers[i].phase.Done? {
      n := SomebodyQuit(start, front, i);
    } else {
      n := |events| - 1;
    }
  }

  lemma {:induction false} DrainersStay(start: State, events: seq<Event>)
    requires Run(start, events).Some?
    ensures |Run(start, events).value.drainers| == |start.drainers|
  {
    if events != [] {
      DrainersStay(start, events[..|events| - 1]);
    }
  }

  /**
   * With at least one drainer, a broker that says that the queue is empty only when it is, and drainers
   * that wait for the victim's messages to be released, every finished run is accepted, whatever the
   * interleaving.
   */
  lemma HonestRunAccepted(operations: nat, victim: seq<int>, drainers: nat, events: seq<Event>, reports: seq<seq<int>>)
    requires ToSet(victim) <= ToSet(Range(operations)) && drainers > 0
    requires var r := Run(Start(operations, ToSet(victim), drainers), events);
             r.Some? && AllDone(r.value) && Reports(reports, r.value)
    requires HonestlyEmpty(Start(operations, ToSet(victim), drainers), events) && QuitsAfterRelease(events)
    ensures Recovered(operations, victim, Flatten(reports))
  {
    var start := Start(operations, ToSet(victim), drainers);
    DrainersStay(start, events);
    var n := SomebodyQuit(start, events, 0);
    var m :| LateEmptyReply(events, events[n].drainer, m, n);
    RunPrefix(start, events, m);
    ReleasedStays(start, events[..m]);
    EmptyStaysEmpty(start, events, m);
    DrainedRunAcceptedIff(operations, victim, drainers, events, reports);
  }
}
