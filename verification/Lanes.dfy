/**
 * The lane scheduler (`runConcurrent` in src/workloads/live.ts, and again in the queue redelivery and
 * schedule delivery workloads): cooperative lanes that take sequence numbers from one counter. Every
 * stretch between two awaits is one step.
 */
module Lanes {
  import opened Wrappers
  import opened Sequences

  datatype Lane = Unstarted | Operating(sequence: int) | Returned | Threw

  /** `issued`, `completed` and `failed` list the sequence numbers in the order these things happened. */
  datatype State = State(
    operations: nat,
    next: nat,
    lanes: seq<Lane>,
    aborted: bool,
    issued: seq<int>,
    completed: seq<int>,
    failed: seq<int>
  )

  datatype Event =
    | Start(lane: nat)
    | Settle(lane: nat, succeeded: bool)
    | Abort

  function LaneCount(operations: nat, concurrency: nat): nat {
    if operations < concurrency then operations else concurrency
  }

  function Initial(operations: nat, concurrency: nat): State {
    State(operations, 0, seq(LaneCount(operations, concurrency), _ => Unstarted), false, [], [], [])
  }

  predicate Enabled(s: State, e: Event) {
    match e
    case Start(i) => i < |s.lanes| && s.lanes[i].Unstarted?
    case Settle(i, _) => i < |s.lanes| && s.lanes[i].Operating?
    case Abort => true
  }

  /** The head of the loop: return, throw, or take the next sequence number and begin its operation. */
  function Turn(s: State, i: nat): State
    requires i < |s.lanes|
  {
    if s.next >= s.operations then s.(lanes := s.lanes[i := Returned])
    else if s.aborted then s.(lanes := s.lanes[i := Threw])
    else s.(lanes := s.lanes[i := Operating(s.next)], next := s.next + 1, issued := s.issued + [s.next])
  }

  function Next(s: State, e: Event): State
    requires Enabled(s, e)
  {
    match e
    case Start(i) => Turn(s, i)
    case Settle(i, succeeded) =>
      var sequence := s.lanes[i].sequence;
      if succeeded then Turn(s.(completed := s.completed + [sequence]), i)
      else s.(failed := s.failed + [sequence], lanes := s.lanes[i := Threw])
    case Abort => s.(aborted := true)
  }

  function Run(start: State, events: seq<Event>): Option<State> {
    if events == [] then Some(start)
    else
      var before, e := Run(start, events[..|events| - 1]), events[|events| - 1];
      if before.Some? && Enabled(before.value, e) then Some(Next(before.value, e)) else None
  }

  /** The shared counter, the lanes around it and what they have done. */
  class Scheduler {
    const operations: nat
    var next: nat
    var lanes: seq<Lane>
    var aborted: bool
    ghost var issued: seq<int>
    ghost var completed: seq<int>
    ghost var failed: seq<int>

    constructor (operations: nat, concurrency: nat)
      ensures Contents() == Initial(operations, concurrency)
    {
      this.operations := operations;
      next, aborted := 0, false;
      lanes := seq(LaneCount(operations, concurrency), _ => Unstarted);
      issued, completed, failed := [], [], [];
    }

    ghost function Contents(): State
      reads this
    {
      State(operations, next, lanes, aborted, issued, completed, failed)
    }

    method TakeTurn(i: nat)
      requires i < |lanes|
      modifies this
      ensures Contents() == Turn(old(Contents()), i)
    {
      if next < operations {
        if aborted {
          lanes := lanes[i := Threw];
          return;
        }
        var sequence := next;
        next := next + 1;
        issued := issued + [sequence];
        lanes := lanes[i := Operating(sequence)];
      } else {
        lanes := lanes[i := Returned];
      }
    }

    method StartLane(i: nat)
      requires Enabled(Contents(), Start(i))
      modifies this
      ensures Contents() == Next(old(Contents()), Start(i))
    {
      TakeTurn(i);
    }

    method SettleOperation(i: nat, succeeded: bool)
      requires Enabled(Contents(), Settle(i, succeeded))
      modifies this
      ensures Contents() == Next(old(Contents()), Settle(i, succeeded))
    {
      ghost var sequence := lanes[i].sequence;
      if succeeded {
        completed := completed + [sequence];
        TakeTurn(i);
      } else {
        failed := failed + [sequence];
        lanes := lanes[i := Threw];
      }
    }
  }

  // ---------- what every step keeps ----------

  function Held(lane: Lane): multiset<int> {
    if lane.Operating? then multiset{lane.sequence} else multiset{}
  }

  /** The sequence numbers in flight. */
  function InFlight(lanes: seq<Lane>): multiset<int> {
    if lanes == [] then multiset{} else InFlight(lanes[..|lanes| - 1]) + Held(lanes[|lanes| - 1])
  }

  lemma {:induction false} OnePerLane(lanes: seq<Lane>)
    ensures |InFlight(lanes)| <= |lanes|
  {
    if lanes != [] {
      OnePerLane(lanes[..|lanes| - 1]);
    }
  }

  /** Work left in a lane: one step to begin it and one to end it, at most. */
  function Weight(lane: Lane): nat {
    if lane.Unstarted? then 2 else if lane.Operating? then 1 else 0
  }

  function Weights(lanes: seq<Lane>): nat {
    if lanes == [] then 0 else Weights(lanes[..|lanes| - 1]) + Weight(lanes[|lanes| - 1])
  }

  lemma {:induction false} WeightReplaced(lanes: seq<Lane>, i: nat, lane: Lane)
    requires i < |lanes|
    ensures Weights(lanes[i := lane]) + Weight(lanes[i]) == Weights(lanes) + Weight(lane)
  {
    var n := |lanes| - 1;
    var replaced := lanes[i := lane];
    if i == n {
      assert replaced[..n] == lanes[..n];
    } else {
      WeightReplaced(lanes[..n], i, lane);
      assert replaced[..n] == lanes[..n][i := lane];
    }
  }

  lemma {:induction false} SwapLast(a: multiset<int>, b: multiset<int>, c: multiset<int>)
    ensures (a + b) + c == (a + c) + b
  {
  }

  lemma {:induction false} AddBoth(a: multiset<int>, b: multiset<int>, c: multiset<int>, d: multiset<int>, extra: multiset<int>)
    requires a + b == c + d
    ensures (a + extra) + b == (c + extra) + d
  {
    assert (a + extra) + b == (a + b) + extra;
    assert (c + extra) + d == (c + d) + extra;
  }

  lemma LastReplaced(front: seq<Lane>, before: Lane, lane: Lane)
    ensures InFlight(front + [lane]) + Held(before) == InFlight(front + [before]) + Held(lane)
  {
    assert (front + [lane])[..|front|] == front && (front + [before])[..|front|] == front;
    SwapLast(InFlight(front), Held(lane), Held(before));
  }

  /** What both gain by the same last lane leaves an equation as it was. */
  lemma SameLast(a: seq<Lane>, b: seq<Lane>, held: multiset<int>, taken: multiset<int>, last: Lane)
    requires InFlight(a) + held == InFlight(b) + taken
    ensures InFlight(a + [last]) + held == InFlight(b + [last]) + taken
  {
    assert (a + [last])[..|a|] == a && (b + [last])[..|b|] == b;
    AddBoth(InFlight(a), held, InFlight(b), taken, Held(last));
  }

  lemma SplitReplaced(lanes: seq<Lane>, i: nat, lane: Lane)
    requires i < |lanes|
    ensures var front, last := lanes[..|lanes| - 1], lanes[|lanes| - 1];
            && lanes == front + [last]
            && lanes[i := lane] == if i == |front| then front + [lane] else front[i := lane] + [last]
  {
  }

  lemma {:induction false} LaneReplaced(lanes: seq<Lane>, i: nat, lane: Lane)
    requires i < |lanes|
    ensures InFlight(lanes[i := lane]) + Held(lanes[i]) == InFlight(lanes) + Held(lane)
  {
    var front, last := lanes[..|lanes| - 1], lanes[|lanes| - 1];
    SplitReplaced(lanes, i, lane);
    if i == |front| {
      LastReplaced(front, last, lane);
    } else {
      LaneReplaced(front, i, lane);
      SameLast(front[i := lane], front, Held(lanes[i]), Held(lane), last);
    }
  }

  /** One lane gives up what it holds for something else. */
  lemma {:induction false} Exchange(settled: multiset<int>, before: multiset<int>, after: multiset<int>, issued: multiset<int>,
                 held: multiset<int>, taken: multiset<int>)
    requires settled + before == issued + held
    requires after + held == before + taken
    ensures settled + after == issued + taken
  {
    forall x ensures (settled + after)[x] == (issued + taken)[x] {
      assert (settled + before)[x] == (issued + held)[x];
      assert (after + held)[x] == (before + taken)[x];
    }
  }

  /** Every sequence number below the counter was issued once, in order, and is in one place. */
  ghost predicate Accounted(s: State) {
    && s.issued == Range(s.next)
    && multiset(s.completed) + multiset(s.failed) + InFlight(s.lanes) == multiset(Range(s.next))
  }

  ghost predicate LanesInv(s: State) {
    && s.next <= s.operations
    && (forall i :: 0 <= i < |s.lanes| && s.lanes[i].Returned? ==> s.next == s.operations)
    && (s.failed != [] || s.aborted || forall i :: 0 <= i < |s.lanes| ==> !s.lanes[i].Threw?)
  }

  ghost predicate Inv(s: State) {
    Accounted(s) && LanesInv(s)
  }

  lemma {:induction false} RangeNext(n: nat)
    ensures Range(n + 1) == Range(n) + [n]
    ensures multiset(Range(n + 1)) == multiset(Range(n)) + multiset{n}
  {
  }

  /** What the lanes hold after a turn, when the turn's lane has settled what it held. */
  lemma {:induction false} TurnAccounts(settled: multiset<int>, lanes: seq<Lane>, i: nat, lane: Lane, n: nat)
    requires i < |lanes| && settled + InFlight(lanes) == multiset(Range(n)) + Held(lanes[i])
    ensures settled + InFlight(lanes[i := lane]) == multiset(Range(n)) + Held(lane)
    ensures lane == Operating(n) ==> settled + InFlight(lanes[i := lane]) == multiset(Range(n + 1))
    ensures !lane.Operating? ==> settled + InFlight(lanes[i := lane]) == multiset(Range(n))
  {
    LaneReplaced(lanes, i, lane);
    Exchange(settled, InFlight(lanes), InFlight(lanes[i := lane]), multiset(Range(n)), Held(lanes[i]), Held(lane));
    RangeNext(n);
    assert multiset(Range(n)) + multiset{} == multiset(Range(n));
  }

  lemma {:induction false} TurnKeepsLanes(s: State, i: nat)
    requires i < |s.lanes| && LanesInv(s)
    ensures LanesInv(Turn(s, i))
  {
  }

  lemma {:induction false} TurnKeepsAccounts(s: State, i: nat)
    requires i < |s.lanes| && s.issued == Range(s.next)
    requires multiset(s.completed) + multiset(s.failed) + InFlight(s.lanes) == multiset(Range(s.next)) + Held(s.lanes[i])
    ensures Accounted(Turn(s, i))
  {
    var lane := Turn(s, i).lanes[i];
    assert Turn(s, i).lanes == s.lanes[i := lane];
    TurnAccounts(multiset(s.completed) + multiset(s.failed), s.lanes, i, lane, s.next);
    RangeNext(s.next);
  }

  lemma {:induction false} TurnKeeps(s: State, i: nat)
    requires i < |s.lanes| && s.issued == Range(s.next) && LanesInv(s)
    requires multiset(s.completed) + multiset(s.failed) + InFlight(s.lanes) == multiset(Range(s.next)) + Held(s.lanes[i])
    ensures Inv(Turn(s, i))
  {
    TurnKeepsLanes(s, i);
    TurnKeepsAccounts(s, i);
  }

  lemma {:induction false} SettleAccounts(c: seq<int>, f: seq<int>, inFlight: multiset<int>, issued: multiset<int>, x: int)
    requires multiset(c) + multiset(f) + inFlight == issued
    ensures multiset(c + [x]) + multiset(f) + inFlight == issued + multiset{x}
    ensures multiset(c) + multiset(f + [x]) + inFlight == issued + multiset{x}
  {
    assert multiset(c + [x]) == multiset(c) + multiset{x};
    assert multiset(f + [x]) == multiset(f) + multiset{x};
    assert multiset(c) + multiset{x} + multiset(f) + inFlight == multiset(c) + multiset(f) + inFlight + multiset{x};
    assert multiset(c) + (multiset(f) + multiset{x}) + inFlight == multiset(c) + multiset(f) + inFlight + multiset{x};
  }

  lemma {:induction false} FailKeeps(s: State, i: nat)
    requires Inv(s) && Enabled(s, Settle(i, false))
    ensures Inv(Next(s, Settle(i, false)))
  {
    var t := Next(s, Settle(i, false));
    SettleAccounts(s.completed, s.failed, InFlight(s.lanes), multiset(Range(s.next)), s.lanes[i].sequence);
    LaneReplaced(s.lanes, i, Threw);
    Exchange(multiset(t.completed) + multiset(t.failed), InFlight(s.lanes), InFlight(t.lanes), multiset(Range(s.next)),
             Held(s.lanes[i]), Held(Threw));
    assert multiset(Range(s.next)) + Held(Threw) == multiset(Range(s.next));
  }

  lemma {:induction false} StepKeeps(s: State, e: Event)
    requires Inv(s) && Enabled(s, e)
    ensures Inv(Next(s, e))
  {
    match e
    case Start(i) =>
      assert multiset(Range(s.next)) + Held(s.lanes[i]) == multiset(Range(s.next));
      TurnKeeps(s, i);
    case Settle(i, succeeded) =>
      if succeeded {
        SettleAccounts(s.completed, s.failed, InFlight(s.lanes), multiset(Range(s.next)), s.lanes[i].sequence);
        TurnKeeps(s.(completed := s.completed + [s.lanes[i].sequence]), i);
      } else {
        FailKeeps(s, i);
      }
    case Abort =>
  }

  lemma {:induction false} NothingInFlight(lanes: seq<Lane>)
    requires forall i :: 0 <= i < |lanes| ==> !lanes[i].Operating?
    ensures InFlight(lanes) == multiset{}
  {
    if lanes != [] {
      NothingInFlight(lanes[..|lanes| - 1]);
    }
  }

  lemma {:induction false} InitialInv(operations: nat, concurrency: nat)
    ensures Inv(Initial(operations, concurrency))
  {
    NothingInFlight(Initial(operations, concurrency).lanes);
  }

  lemma {:induction false} RunKeeps(operations: nat, concurrency: nat, events: seq<Event>)
    requires Run(Initial(operations, concurrency), events).Some?
    ensures var s := Run(Initial(operations, concurrency), events).value;
            Inv(s) && |s.lanes| == LaneCount(operations, concurrency) && s.operations == operations
  {
    var start := Initial(operations, concurrency);
    if events == [] {
      InitialInv(operations, concurrency);
    } else {
      RunKeeps(operations, concurrency, events[..|events| - 1]);
      StepKeeps(Run(start, events[..|events| - 1]).value, events[|events| - 1]);
    }
  }

  // ---------- what holds over every run ----------

  /**
   * The sequence numbers issued are 0, 1, 2, ... in this order; each of them is in flight, completed or
   * failed, and only once; and no more are in flight than there are operations or than the concurrency
   * allows.
   */
  lemma {:induction false} IssuedOnceInOrder(operations: nat, concurrency: nat, events: seq<Event>)
    requires Run(Initial(operations, concurrency), events).Some?
    ensures var s := Run(Initial(operations, concurrency), events).value;
            && s.issued == Range(|s.issued|) && |s.issued| <= operations
            && (forall x :: multiset(s.completed)[x] + multiset(s.failed)[x] + InFlight(s.lanes)[x]
                         == if x in s.issued then 1 else 0)
            && |InFlight(s.lanes)| <= |s.lanes| <= operations && |s.lanes| <= concurrency
            && (|s.lanes| == operations || |s.lanes| == concurrency)
  {
    RunKeeps(operations, concurrency, events);
    var s := Run(Initial(operations, concurrency), events).value;
    OnePerLane(s.lanes);
    forall x ensures multiset(s.completed)[x] + multiset(s.failed)[x] + InFlight(s.lanes)[x] == if x in s.issued then 1 else 0 {
      DistinctMultiset(s.issued, x);
      assert (multiset(s.completed) + multiset(s.failed) + InFlight(s.lanes))[x] == multiset(s.issued)[x];
    }
  }

  predicate Terminal(s: State) {
    forall i :: 0 <= i < |s.lanes| ==> s.lanes[i].Returned? || s.lanes[i].Threw?
  }

  // ---------- when operations are issued, and how a run ends ----------

  /** How often a lane came to the head of its loop before the abort. */
  function TurnsTaken(events: seq<Event>): nat {
    if events == [] then 0
    else
      var front, last := events[..|events| - 1], events[|events| - 1];
      TurnsTaken(front) + if Abort !in front && (last.Start? || (last.Settle? && last.succeeded)) then 1 else 0
  }

  /** How many operations ended so. */
  function Ended(events: seq<Event>, succeeded: bool): nat {
    if events == [] then 0
    else
      var front, last := events[..|events| - 1], events[|events| - 1];
      Ended(front, succeeded) + if last.Settle? && last.succeeded == succeeded then 1 else 0
  }

  function Min(x: nat, y: nat): nat {
    if x < y then x else y
  }

  ghost predicate CountInv(s: State, events: seq<Event>) {
    && (s.aborted <==> Abort in events)
    && s.next == |s.issued| == Min(s.operations, TurnsTaken(events))
    && |s.completed| == Ended(events, true)
    && |s.failed| == Ended(events, false)
  }

  lemma CountNext(s: State, events: seq<Event>, e: Event)
    requires Enabled(s, e) && CountInv(s, events)
    ensures CountInv(Next(s, e), events + [e])
  {
    assert (events + [e])[..|events|] == events;
  }

  /**
   * Every turn before the abort issues an operation, as long as there are any, and no turn after it does;
   * what the operations reported is what is listed as completed and as failed.
   */
  lemma {:induction false} IssuedCount(operations: nat, concurrency: nat, events: seq<Event>)
    requires Run(Initial(operations, concurrency), events).Some?
    ensures var s := Run(Initial(operations, concurrency), events).value;
            s.operations == operations && CountInv(s, events)
  {
    if events != [] {
      var front, last := events[..|events| - 1], events[|events| - 1];
      IssuedCount(operations, concurrency, front);
      CountNext(Run(Initial(operations, concurrency), front).value, front, last);
      assert events == front + [last];
    }
  }

  ghost predicate SomeThrew(s: State) {
    exists i :: 0 <= i < |s.lanes| && s.lanes[i].Threw?
  }

  ghost predicate EndsInv(s: State) {
    && (forall i :: 0 <= i < |s.lanes| && s.lanes[i].Returned? ==> s.next >= s.operations)
    && (SomeThrew(s) ==> s.failed != [] || (s.aborted && s.next < s.operations))
    && (s.failed != [] ==> SomeThrew(s))
  }

  lemma EndsNext(s: State, e: Event)
    requires Enabled(s, e) && EndsInv(s)
    ensures EndsInv(Next(s, e))
  {
    var t := Next(s, e);
    if i :| 0 <= i < |s.lanes| && s.lanes[i].Threw? {
      assert t.lanes[i].Threw?;
    }
    if e.Settle? && !e.succeeded {
      assert t.lanes[e.lane].Threw?;
    }
    forall i | 0 <= i < |t.lanes| && t.lanes[i].Threw?
      ensures s.lanes[i].Threw? || t.failed != [] || (t.aborted && t.next < t.operations) {}
  }

  lemma {:induction false} EndsKept(operations: nat, concurrency: nat, events: seq<Event>)
    requires Run(Initial(operations, concurrency), events).Some?
    ensures EndsInv(Run(Initial(operations, concurrency), events).value)
  {
    if events != [] {
      var front := events[..|events| - 1];
      EndsKept(operations, concurrency, front);
      EndsNext(Run(Initial(operations, concurrency), front).value, events[|events| - 1]);
    }
  }

  /** A run that is over is rejected exactly when an operation failed or, with lanes at work, not all were issued. */
  lemma RejectedIff(operations: nat, concurrency: nat, events: seq<Event>)
    requires Run(Initial(operations, concurrency), events).Some?
    requires Terminal(Run(Initial(operations, concurrency), events).value)
    ensures var s := Run(Initial(operations, concurrency), events).value;
            SomeThrew(s) <==> s.failed != [] || (|s.issued| < operations && s.lanes != [])
  {
    var s := Run(Initial(operations, concurrency), events).value;
    IssuedCount(operations, concurrency, events);
    EndsKept(operations, concurrency, events);
    if |s.issued| < operations && s.lanes != [] {
      assert s.lanes[0].Threw?;
    }
  }

  /**
   * A run that is over, without failure and without abort, has completed every operation once, unless
   * there were operations but not a single lane.
   */
  lemma {:induction false} CompletesAllIff(operations: nat, concurrency: nat, events: seq<Event>)
    requires Run(Initial(operations, concurrency), events).Some?
    requires var s := Run(Initial(operations, concurrency), events).value;
             Terminal(s) && s.failed == [] && !s.aborted
    ensures var s := Run(Initial(operations, concurrency), events).value;
            multiset(s.completed) == multiset(Range(operations)) <==> operations == 0 || concurrency >= 1
  {
    RunKeeps(operations, concurrency, events);
    var s := Run(Initial(operations, concurrency), events).value;
    NothingInFlight(s.lanes);
    assert multiset(s.completed) == multiset(Range(s.next));
    if |s.lanes| > 0 {
      assert s.lanes[0].Returned?;
    } else {
      NoLaneIssues(operations, concurrency, events);
      if operations > 0 {
        assert Range(operations)[0] in multiset(Range(operations));
      }
    }
  }

  /** One operation and no concurrency: the run is over before it begins, without failure and with nothing done. */
  lemma NoLanesNoWork()
    ensures var s := Run(Initial(1, 0), []).value;
            Terminal(s) && s.failed == [] && !s.aborted && s.completed == []
  {
  }

  lemma {:induction false} NoLaneIssues(operations: nat, concurrency: nat, events: seq<Event>)
    requires Run(Initial(operations, concurrency), events).Some? && LaneCount(operations, concurrency) == 0
    ensures Run(Initial(operations, concurrency), events).value.next == 0
  {
    if events != [] {
      NoLaneIssues(operations, concurrency, events[..|events| - 1]);
      RunKeeps(operations, concurrency, events[..|events| - 1]);
    }
  }

  // ---------- termination ----------

  /** Sequence numbers not issued yet, and the work left in the lanes. */
  function Measure(s: State): int {
    s.operations - s.next + Weights(s.lanes)
  }

  lemma {:induction false} StepDecreases(s: State, e: Event)
    requires Inv(s) && Enabled(s, e) && !e.Abort?
    ensures 0 <= Measure(Next(s, e)) < Measure(s)
  {
    StepKeeps(s, e);
    WeightReplaced(s.lanes, e.lane, Next(s, e).lanes[e.lane]);
  }

  /** A run that is not over can go on as soon as the next operation finishes. */
  lemma {:induction false} NeverStuck(s: State)
    requires !Terminal(s)
    ensures exists i: nat :: Enabled(s, Start(i)) || Enabled(s, Settle(i, true))
  {
    var i :| 0 <= i < |s.lanes| && !s.lanes[i].Returned? && !s.lanes[i].Threw?;
    assert Enabled(s, Start(i)) || Enabled(s, Settle(i, true));
  }

  function Turns(events: seq<Event>): nat {
    if events == [] then 0 else Turns(events[..|events| - 1]) + (if events[|events| - 1].Abort? then 0 else 1)
  }

  lemma {:induction false} InitialWeight(n: nat)
    ensures Weights(seq(n, _ => Unstarted)) == 2 * n
  {
    if n > 0 {
      InitialWeight(n - 1);
      assert seq(n, _ => Unstarted)[..n - 1] == seq(n - 1, _ => Unstarted);
    }
  }

  /** However lanes interleave, a run takes at most one step per operation and two per lane. */
  lemma {:induction false} TurnsBounded(operations: nat, concurrency: nat, events: seq<Event>)
    requires Run(Initial(operations, concurrency), events).Some?
    ensures Turns(events) + Measure(Run(Initial(operations, concurrency), events).value)
         <= operations + 2 * LaneCount(operations, concurrency)
    ensures Turns(events) <= operations + 2 * LaneCount(operations, concurrency)
  {
    var start := Initial(operations, concurrency);
    RunKeeps(operations, concurrency, events);
    if events == [] {
      InitialWeight(LaneCount(operations, concurrency));
    } else {
      var front, e := events[..|events| - 1], events[|events| - 1];
      TurnsBounded(operations, concurrency, front);
      RunKeeps(operations, concurrency, front);
      if !e.Abort? {
        StepDecreases(Run(start, front).value, e);
      }
    }
  }
}
