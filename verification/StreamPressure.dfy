/**
 * The stream pressure loop with its offset reconciliation (`bombard` in src/worker.ts and
 * src/workloads/pressure.ts), against a broker whose commits can have an unknown outcome.
 */
module StreamPressure {
  import opened Wrappers
  import opened Sequences

  // ---------- the client's loop ----------

  datatype Outcome = Succeeded | Threw | Unreconciled

  /**
   * How one turn of the retry loop ends: with a commit, or with an error. `busy` says that the error
   * is the broker's refusal to begin while an older session is still active, `aborted` that the
   * worker is shutting down, and `recovery` is the latest offset a replacement client peeked, None
   * when closing, connecting or peeking failed.
   */
  datatype Attempt =
    | Committed
    | Failed(busy: bool, aborted: bool, recovery: Option<Option<nat>>)

  function NextPressureStreamOffset(latest: Option<nat>): nat {
    if latest.None? then 0 else latest.value + 1
  }

  /** What an error leaves of the offset, and how the operation ends; None to try again. */
  function AfterFailure(offset: nat, busy: bool, aborted: bool, recovery: Option<Option<nat>>): (nat, Option<Outcome>) {
    if aborted then (offset, Some(Threw))
    else if recovery.None? then (offset, Some(Unreconciled))
    else (NextPressureStreamOffset(recovery.value), if busy then None else Some(Threw))
  }

  /** The offset and the outcome after a sequence of turns; None while the loop would go on. */
  function AfterAttempts(offset: nat, attempts: seq<Attempt>): (nat, Option<Outcome>)
    decreases |attempts|
  {
    if attempts == [] then (offset, None)
    else if attempts[0].Committed? then (offset + 1, Some(Succeeded))
    else
      var f := attempts[0];
      var next := AfterFailure(offset, f.busy, f.aborted, f.recovery);
      if next.1.Some? then next else AfterAttempts(next.0, attempts[1..])
  }

  // ---------- what the loop comes to ----------

  /** A turn after which the loop goes on: begin was refused for the older session, and the offset was reconciled. */
  predicate GoesOn(a: Attempt) {
    a.Failed? && a.busy && !a.aborted && a.recovery.Some?
  }

  /** Turn k ends the operation. */
  ghost predicate EndsAt(attempts: seq<Attempt>, k: int) {
    0 <= k < |attempts| && !GoesOn(attempts[k]) && forall i :: 0 <= i < k ==> GoesOn(attempts[i])
  }

  /** The offset that the latest reconciliation before the shutdown found, if there was one. */
  function LastKnown(offset: nat, attempts: seq<Attempt>): nat {
    if attempts == [] then offset
    else
      var front, last := attempts[..|attempts| - 1], attempts[|attempts| - 1];
      if last.Failed? && !last.aborted && last.recovery.Some?
      then (match last.recovery.value case None => 0 case Some(latest) => latest + 1)
      else LastKnown(offset, front)
  }

  lemma {:induction false} LastKnownTail(offset: nat, attempts: seq<Attempt>)
    requires attempts != [] && GoesOn(attempts[0])
    ensures LastKnown(offset, attempts) == LastKnown(LastKnown(offset, attempts[..1]), attempts[1..])
    decreases |attempts|
  {
    if |attempts| > 1 {
      var front := attempts[..|attempts| - 1];
      LastKnownTail(offset, front);
      assert front[..1] == attempts[..1] && attempts[1..][..|attempts| - 2] == front[1..];
    } else {
      assert attempts[..1] == attempts;
    }
  }

  /** As long as every turn goes on, the loop does, with the offset of the latest reconciliation. */
  lemma {:induction false} LoopGoesOn(offset: nat, attempts: seq<Attempt>)
    requires forall i :: 0 <= i < |attempts| ==> GoesOn(attempts[i])
    ensures AfterAttempts(offset, attempts) == (LastKnown(offset, attempts), None)
    decreases |attempts|
  {
    if attempts != [] {
      LastKnownTail(offset, attempts);
      assert attempts[..1][0] == attempts[0];
      LoopGoesOn(LastKnown(offset, attempts[..1]), attempts[1..]);
    }
  }

  /** The first turn that does not go on decides, and nothing after it matters. */
  lemma {:induction false} LoopEnds(offset: nat, attempts: seq<Attempt>, k: int)
    requires EndsAt(attempts, k)
    ensures AfterAttempts(offset, attempts)
         == (LastKnown(offset, attempts[..k + 1]) + (if attempts[k].Committed? then 1 else 0),
             if attempts[k].Committed? then Some(Succeeded)
             else if !attempts[k].aborted && attempts[k].recovery.None? then Some(Unreconciled)
             else Some(Threw))
    decreases |attempts|
  {
    var first := attempts[..k + 1];
    assert first[..1] == [attempts[0]];
    if k == 0 {
      assert LastKnown(offset, []) == offset;
    } else {
      var rest := attempts[1..];
      assert rest[..k] == first[1..];
      assert EndsAt(rest, k - 1) by {
        forall i | 0 <= i < k - 1 ensures GoesOn(rest[i]) { assert rest[i] == attempts[i + 1]; }
      }
      LastKnownTail(offset, first);
      LoopEnds(LastKnown(offset, [attempts[0]]), rest, k - 1);
    }
  }

  /** How an operation ends, for every sequence of turns. */
  lemma AppendEndsIff(offset: nat, attempts: seq<Attempt>)
    ensures var outcome := AfterAttempts(offset, attempts).1;
            && (outcome.None? <==> forall i :: 0 <= i < |attempts| ==> GoesOn(attempts[i]))
            && (outcome == Some(Succeeded) <==> exists k :: EndsAt(attempts, k) && attempts[k].Committed?)
            && (outcome == Some(Unreconciled) <==>
                  exists k :: EndsAt(attempts, k) && attempts[k].Failed? && !attempts[k].aborted && attempts[k].recovery.None?)
            && (outcome == Some(Threw) <==>
                  exists k :: EndsAt(attempts, k) && attempts[k].Failed? && (attempts[k].aborted || attempts[k].recovery.Some?))
  {
    if forall i :: 0 <= i < |attempts| ==> GoesOn(attempts[i]) {
      LoopGoesOn(offset, attempts);
    } else {
      var k := FirstEnd(attempts);
      LoopEnds(offset, attempts, k);
      forall j | EndsAt(attempts, j) ensures j == k {
        OneEnd(attempts, j, k);
      }
    }
  }

  lemma OneEnd(attempts: seq<Attempt>, j: int, k: int)
    requires EndsAt(attempts, j) && EndsAt(attempts, k)
    ensures j == k
  {
  }

  lemma {:induction false} FirstEnd(attempts: seq<Attempt>) returns (k: int)
    requires !forall i :: 0 <= i < |attempts| ==> GoesOn(attempts[i])
    ensures EndsAt(attempts, k)
    decreases |attempts|
  {
    if GoesOn(attempts[0]) {
      var rest := attempts[1..];
      assert forall i :: 0 < i < |attempts| ==> attempts[i] == rest[i - 1];
      k := FirstEnd(rest);
      k := k + 1;
      forall i | 0 <= i < k ensures GoesOn(attempts[i]) {
        assert i > 0 ==> attempts[i] == rest[i - 1];
      }
    } else {
      k := 0;
    }
  }

  class StreamWriter {
    var nextStreamOffset: nat

    constructor ()
      ensures nextStreamOffset == 0
    {
      nextStreamOffset := 0;
    }

    method Append(attempts: seq<Attempt>) returns (outcome: Option<Outcome>)
      modifies this
      ensures (nextStreamOffset, outcome) == AfterAttempts(old(nextStreamOffset), attempts)
    {
      for i := 0 to |attempts|
        invariant AfterAttempts(old(nextStreamOffset), attempts) == AfterAttempts(nextStreamOffset, attempts[i..])
      {
        match attempts[i] {
          case Committed =>
            nextStreamOffset := nextStreamOffset + 1;
            return Some(Succeeded);
          case Failed(busy, aborted, recovery) =>
            if aborted {
              return Some(Threw);
            }
            if recovery.None? {
              return Some(Unreconciled);
            }
            nextStreamOffset := NextPressureStreamOffset(recovery.value);
            if !busy {
              return Some(Threw);
            }
        }
      }
      return None;
    }
  }

  // ---------- the state machine ----------

  datatype Phase =
    | Idle
    | Beginning(expected: nat)
    | Appending(expected: nat)
    | Committing(expected: nat)
    | Recovering(expected: nat, busy: bool)

  /**
   * `log` lists the counters the broker has stored, in offset order; `undecided` is a commit of
   * unknown outcome. `aligned` records that no reconciliation has failed or was skipped since the
   * offset was last known to be right.
   */
  datatype State = State(
    counter: nat,
    phase: Phase,
    nextOffset: nat,
    aborted: bool,
    log: seq<int>,
    undecided: Option<nat>,
    aligned: bool
  )

  datatype BeginReply = Begun | Busy | Refused
  datatype CommitReply = Confirmed | Lost | Rejected

  datatype Event =
    | Start
    | Begin(begin: BeginReply)
    | Append(accepted: bool)
    | Commit(commit: CommitReply)
    | Recover(peeked: bool)
    | Settle(applied: bool)
    | Shutdown

  function Initial(): State {
    State(0, Idle, 0, false, [], None, true)
  }

  function Latest(log: seq<int>): Option<nat> {
    if log == [] then None else Some(|log| - 1)
  }

  /**
   * An undecided commit is decided before a session begins or a peek answers, and an append is
   * accepted only at the end of the log.
   */
  predicate Enabled(s: State, e: Event) {
    match e
    case Start => s.phase.Idle? && !s.aborted
    case Begin(begin) => s.phase.Beginning? && (begin.Begun? ==> s.undecided.None?)
    case Append(accepted) => s.phase.Appending? && (accepted ==> s.phase.expected == |s.log|)
    case Commit(_) => s.phase.Committing?
    case Recover(peeked) => s.phase.Recovering? && (peeked ==> s.undecided.None?)
    case Settle(_) => s.undecided.Some?
    case Shutdown => true
  }

  function Finish(s: State): State {
    s.(phase := Idle, counter := s.counter + 1)
  }

  function AfterCommit(s: State, reply: CommitReply): State
    requires s.phase.Committing?
  {
    match reply
    case Confirmed => Finish(s.(log := s.log + [s.counter], nextOffset := s.nextOffset + 1, aligned := true))
    case Lost => s.(phase := Recovering(s.phase.expected, false), undecided := Some(s.counter))
    case Rejected => s.(phase := Recovering(s.phase.expected, false))
  }

  function AfterRecover(s: State, peeked: bool): State
    requires s.phase.Recovering?
  {
    var after := AfterFailure(s.nextOffset, s.phase.busy, s.aborted, if peeked then Some(Latest(s.log)) else None);
    var next := s.(nextOffset := after.0, aligned := peeked && !s.aborted);
    // A retry appends at the offset the operation started with.
    if after.1.None? then next.(phase := Beginning(s.phase.expected)) else Finish(next)
  }

  function Next(s: State, e: Event): State
    requires Enabled(s, e)
  {
    match e
    case Start => s.(phase := Beginning(s.nextOffset))
    case Begin(begin) =>
      s.(phase := if begin.Begun? then Appending(s.phase.expected) else Recovering(s.phase.expected, begin.Busy?))
    case Append(accepted) =>
      s.(phase := if accepted then Committing(s.phase.expected) else Recovering(s.phase.expected, false))
    case Commit(reply) => AfterCommit(s, reply)
    case Recover(peeked) => AfterRecover(s, peeked)
    case Settle(applied) => s.(log := if applied then s.log + [s.undecided.value] else s.log, undecided := None)
    case Shutdown => s.(aborted := true)
  }

  function Run(events: seq<Event>): Option<State> {
    if events == [] then Some(Initial())
    else
      var before, e := Run(events[..|events| - 1]), events[|events| - 1];
      if before.Some? && Enabled(before.value, e) then Some(Next(before.value, e)) else None
  }

  /** The turn of the loop that a step ends, if it ends one. */
  function TurnEndedBy(s: State, e: Event): Option<Attempt>
    requires Enabled(s, e)
  {
    if e == Commit(Confirmed) then Some(Committed)
    else if e.Recover? then Some(Failed(s.phase.busy, s.aborted, if e.peeked then Some(Latest(s.log)) else None))
    else None
  }

  /** The machine moves the offset, and ends the operation, exactly as the loop does at the end of a turn. */
  lemma StepIsTurn(s: State, e: Event)
    requires Enabled(s, e)
    ensures var turn := TurnEndedBy(s, e);
            && (turn.None? ==> Next(s, e).nextOffset == s.nextOffset && Next(s, e).counter == s.counter)
            && (turn.Some? ==>
                  var after := AfterAttempts(s.nextOffset, [turn.value]);
                  && Next(s, e).nextOffset == after.0
                  && (after.1.Some? <==> Next(s, e).phase.Idle?)
                  && (after.1.None? <==> Next(s, e).phase.Beginning?)
                  && Next(s, e).counter == s.counter + (if after.1.Some? then 1 else 0))
  {
    var turn := TurnEndedBy(s, e);
    if turn.Some? && turn.value.Failed? {
      assert [turn.value][1..] == [];
    }
  }

  /** The machine tries again exactly after a busy refusal that was reconciled before the shutdown; else the operation is over. */
  lemma RecoverEnds(s: State, peeked: bool)
    requires Enabled(s, Recover(peeked))
    ensures var t := Next(s, Recover(peeked));
            if s.phase.busy && peeked && !s.aborted then
              t.phase == Beginning(s.phase.expected) && t.counter == s.counter && t.nextOffset == |s.log|
            else
              t.phase.Idle? && t.counter == s.counter + 1
              && t.nextOffset == if peeked && !s.aborted then |s.log| else s.nextOffset
  {
  }

  /** Only the broker's refusal to begin counts as busy. */
  lemma BusyIff(s: State, e: Event)
    requires Enabled(s, e) && !s.phase.Recovering? && Next(s, e).phase.Recovering?
    ensures Next(s, e).phase.busy <==> e == Begin(Busy)
  {
  }

  // ---------- what every step keeps ----------

  ghost predicate AllBelow(log: seq<int>, n: int) {
    forall i :: 0 <= i < |log| ==> 0 <= log[i] < n
  }

  /** The log has stored nothing from `n` on, nor will an undecided commit. */
  ghost predicate NotYet(s: State, n: int) {
    && AllBelow(s.log, n)
    && (s.undecided.Some? ==> s.undecided.value < n)
  }

  ghost predicate LogInv(s: State) {
    && Increasing(s.log)
    && (s.undecided.Some? ==> AllBelow(s.log, s.undecided.value))
    && NotYet(s, if s.phase.Recovering? && !s.phase.busy then s.counter + 1 else s.counter)
  }

  /** The offset is that of the next append. */
  ghost predicate Exact(s: State) {
    s.undecided.None? && s.nextOffset == |s.log|
  }

  ghost predicate OffsetInv(s: State) {
    && s.nextOffset <= |s.log|
    && (s.phase.Appending? || s.phase.Committing? ==> s.undecided.None?)
    && (s.phase.Committing? ==> s.phase.expected == |s.log|)
    && (s.phase.Beginning? || s.phase.Appending? || s.phase.Committing? ==> s.phase.expected == s.nextOffset || Exact(s))
    && (s.aligned && !s.phase.Recovering? ==> Exact(s))
  }

  ghost predicate Inv(s: State) {
    LogInv(s) && OffsetInv(s)
  }

  lemma CommitKeepsLog(s: State, reply: CommitReply)
    requires Inv(s) && Enabled(s, Commit(reply))
    ensures LogInv(AfterCommit(s, reply))
  {
  }

  lemma SettleKeepsLog(s: State, applied: bool)
    requires Inv(s) && Enabled(s, Settle(applied))
    ensures LogInv(Next(s, Settle(applied)))
  {
  }

  lemma StepKeepsLog(s: State, e: Event)
    requires Inv(s) && Enabled(s, e)
    ensures LogInv(Next(s, e))
  {
    match e
    case Commit(reply) => CommitKeepsLog(s, reply);
    case Settle(applied) => SettleKeepsLog(s, applied);
    case _ =>
  }

  lemma StepKeepsOffset(s: State, e: Event)
    requires OffsetInv(s) && Enabled(s, e)
    ensures OffsetInv(Next(s, e))
  {
  }

  lemma {:induction false} RunKeeps(events: seq<Event>)
    requires Run(events).Some?
    ensures Inv(Run(events).value)
  {
    if events != [] {
      var s := Run(events[..|events| - 1]).value;
      RunKeeps(events[..|events| - 1]);
      StepKeepsLog(s, events[|events| - 1]);
      StepKeepsOffset(s, events[|events| - 1]);
    }
  }

  // ---------- what holds over every run ----------

  /** Whatever is lost or retried, no counter is stored twice and counters are stored in order. */
  lemma StoredOnceInOrder(events: seq<Event>)
    requires Run(events).Some?
    ensures Increasing(Run(events).value.log) && Distinct(Run(events).value.log)
    ensures forall i :: 0 <= i < |Run(events).value.log| ==> 0 <= Run(events).value.log[i] <= Run(events).value.counter
  {
    RunKeeps(events);
  }

  /** An operation succeeds only at the end of the log, stores its own counter and leaves the offset exact. */
  lemma SuccessIsExact(events: seq<Event>)
    requires Run(events).Some? && Enabled(Run(events).value, Commit(Confirmed))
    ensures var s := Run(events).value;
            var t := Next(s, Commit(Confirmed));
            && s.phase.expected == s.nextOffset == |s.log|
            && t.log == s.log + [s.counter]
            && t.nextOffset == |t.log| && t.undecided.None?
  {
    RunKeeps(events);
  }

  lemma {:induction false} OffsetNeverAhead(events: seq<Event>)
    requires Run(events).Some?
    ensures Run(events).value.nextOffset <= |Run(events).value.log|
  {
    RunKeeps(events);
  }

  /** A step after which the offset is right: a confirmed commit, or a peek that answers before the shutdown. */
  predicate Aligns(before: seq<Event>, e: Event) {
    e == Commit(Confirmed) || (e == Recover(true) && Shutdown !in before)
  }

  /** How many commits of unknown outcome turned out to be stored since the offset was last aligned. */
  function Behind(events: seq<Event>): nat {
    if events == [] then 0
    else
      var before, e := events[..|events| - 1], events[|events| - 1];
      if Aligns(before, e) then 0
      else if e == Settle(true) then Behind(before) + 1
      else Behind(before)
  }

  /** The latest commit of unknown outcome has not been decided yet. */
  predicate Undecided(events: seq<Event>) {
    if events == [] then false
    else
      var before, e := events[..|events| - 1], events[|events| - 1];
      e == Commit(Lost) || (!e.Settle? && Undecided(before))
  }

  /** No reconciliation has failed, or was skipped for the shutdown, since the offset was last aligned. */
  predicate Reconciled(events: seq<Event>) {
    if events == [] then true
    else
      var before, e := events[..|events| - 1], events[|events| - 1];
      Aligns(before, e) || (!e.Recover? && Reconciled(before))
  }

  lemma {:induction false} ShutdownAborts(events: seq<Event>)
    requires Run(events).Some?
    ensures Run(events).value.aborted <==> Shutdown in events
  {
    if events != [] {
      var before, e := events[..|events| - 1], events[|events| - 1];
      ShutdownAborts(before);
      assert events == before + [e];
    }
  }

  lemma LagStep(s: State, e: Event)
    requires OffsetInv(s) && Enabled(s, e)
    ensures var t := Next(s, e);
            |t.log| - t.nextOffset
            == if e == Commit(Confirmed) || (e == Recover(true) && !s.aborted) then 0
               else |s.log| - s.nextOffset + (if e == Settle(true) then 1 else 0)
    ensures Next(s, e).undecided.Some? <==> e == Commit(Lost) || (!e.Settle? && s.undecided.Some?)
  {
  }

  /** The offset lags behind the log by just the commits that turned out to be stored since it was last aligned. */
  lemma {:induction false} OffsetLag(events: seq<Event>)
    requires Run(events).Some?
    ensures |Run(events).value.log| == Run(events).value.nextOffset + Behind(events)
    ensures Run(events).value.undecided.Some? <==> Undecided(events)
  {
    if events != [] {
      var before := events[..|events| - 1];
      RunKeeps(before);
      ShutdownAborts(before);
      OffsetLag(before);
      LagStep(Run(before).value, events[|events| - 1]);
    }
  }

  /** The offset is that of the next append exactly when nothing is undecided and nothing came to light since the last alignment. */
  lemma OffsetExactIff(events: seq<Event>)
    requires Run(events).Some?
    ensures Exact(Run(events).value) <==> !Undecided(events) && Behind(events) == 0
  {
    OffsetLag(events);
  }

  /** Between operations the offset is exact if every reconciliation since the last alignment went through. */
  lemma StaleOnlyAfterFailure(events: seq<Event>)
    requires Run(events).Some? && Run(events).value.phase.Idle? && Reconciled(events)
    ensures Exact(Run(events).value)
  {
    RunKeeps(events);
    ReconciledIsAligned(events);
  }

  lemma {:induction false} ReconciledIsAligned(events: seq<Event>)
    requires Run(events).Some?
    ensures Run(events).value.aligned <==> Reconciled(events)
  {
    if events != [] {
      var before := events[..|events| - 1];
      ShutdownAborts(before);
      ReconciledIsAligned(before);
    }
  }

  /** A reconciliation that goes through puts the offset right, whatever happened before. */
  lemma RecoveryRealigns(events: seq<Event>)
    requires Run(events).Some? && Enabled(Run(events).value, Recover(true)) && !Run(events).value.aborted
    ensures Exact(Next(Run(events).value, Recover(true)))
  {
  }

  /** The operation under way is to append at an offset that the log has outgrown. */
  ghost predicate Outgrown(s: State) {
    (s.phase.Beginning? || s.phase.Appending? || s.phase.Recovering?) && s.phase.expected < |s.log|
  }

  lemma OutgrownStep(s: State, e: Event)
    requires Inv(s) && Enabled(s, e) && (s.phase.Idle? || Outgrown(s)) && e != Start
    ensures Next(s, e).phase.Idle? || Outgrown(Next(s, e))
    ensures !e.Commit? && e != Append(true)
    ensures Next(s, e).log == if e == Settle(true) then s.log + [s.undecided.value] else s.log
    ensures Next(s, e).undecided == if e.Settle? then None else s.undecided
  {
  }

  /**
   * Once the log has outgrown the offset of an operation, its retries store nothing any more, however
   * many turns they take: until the next operation starts the log gains at most an older commit that
   * had been undecided.
   */
  lemma {:induction false} StaleRetryCannotAppend(events: seq<Event>, more: seq<Event>)
    requires Run(events).Some? && Outgrown(Run(events).value)
    requires Run(events + more).Some? && Start !in more
    ensures forall i :: 0 <= i < |more| ==> !more[i].Commit? && more[i] != Append(true)
    ensures var s, t := Run(events).value, Run(events + more).value;
            && (t.phase.Idle? || Outgrown(t))
            && (t.undecided == s.undecided || t.undecided.None?)
            && (t.log == s.log || (s.undecided.Some? && t.undecided.None? && t.log == s.log + [s.undecided.value]))
    decreases |more|
  {
    if more == [] {
      assert events + more == events;
    } else {
      var front, last := more[..|more| - 1], more[|more| - 1];
      assert (events + more)[..|events + more| - 1] == events + front;
      assert last in more && more == front + [last];
      StaleRetryCannotAppend(events, front);
      RunKeeps(events + front);
      OutgrownStep(Run(events + front).value, last);
    }
  }

  /** The log grows at its end and only there. */
  lemma {:induction false} LogGrows(events: seq<Event>, n: nat)
    requires n <= |events| && Run(events).Some?
    ensures Run(events[..n]).Some? && Run(events[..n]).value.log <= Run(events).value.log
    decreases |events|
  {
    if n == |events| {
      assert events[..n] == events;
    } else {
      var front := events[..|events| - 1];
      assert front[..n] == events[..n];
      LogGrows(front, n);
    }
  }

  // ---------- stale offsets ----------

  /** An operation whose commit has an unknown outcome. */
  lemma CommitLost() returns (events: seq<Event>)
    ensures Run(events) == Some(State(0, Recovering(0, false), 0, false, [], Some(0), true))
    ensures forall e :: e in events ==> !e.Recover?
  {
    events := [];
    events := RunOn(events, Start);
    events := RunOn(events, Begin(Begun));
    events := RunOn(events, Append(true));
    events := RunOn(events, Commit(Lost));
  }

  /** A lost commit that was stored, and a peek that failed, leave the offset behind. */
  lemma StaleExample() returns (events: seq<Event>)
    ensures Run(events).Some? && Run(events).value.phase.Idle? && Shutdown !in events
    ensures Run(events).value.nextOffset == 0 && |Run(events).value.log| == 1
  {
    events := CommitLost();
    ShutdownAborts(events);
    events := RunOn(events, Recover(false));
    events := RunOn(events, Settle(true));
  }

  /** So does a shutdown between the lost commit and the peek, though the peek would have answered. */
  lemma ShutdownExample() returns (events: seq<Event>)
    ensures Run(events).Some? && Run(events).value.phase.Idle? && Recover(false) !in events
    ensures Run(events).value.nextOffset == 0 && |Run(events).value.log| == 1
  {
    var lost := CommitLost();
    events := RunOn(lost, Shutdown);
    events := RunOn(events, Settle(true));
    events := RunOn(events, Recover(true));
  }

  lemma RunOn(events: seq<Event>, e: Event) returns (longer: seq<Event>)
    requires Run(events).Some? && Enabled(Run(events).value, e)
    ensures longer == events + [e] && Run(longer) == Some(Next(Run(events).value, e))
  {
    longer := events + [e];
    assert longer[..|events|] == events;
  }
}
