/** The exactly-once oracle of the queue pressure run (`reconcileQueueOutcomes` in src/pressure.ts). */
module QueueReconcile {
  import opened Wrappers
  import opened Sequences

  const MAX_SAFE_INTEGER := 0x1f_ffff_ffff_ffff

  datatype QueueOutcome = QueueOutcome(
    worker: string,
    acknowledged: seq<int>,
    ambiguousEnqueues: seq<int>,
    failedEnqueues: seq<int>,
    completed: seq<int>,
    ambiguousCompletions: seq<int>
  )

  datatype Totals = Totals(
    acknowledged: nat, ambiguousEnqueues: nat, failedEnqueues: nat,
    completed: nat, ambiguousCompletions: nat, observed: nat)

  datatype Reconciliation = Reconciliation(totals: Totals, clients: seq<(QueueOutcome, seq<int>)>)

  datatype ReconcileError =
    | InvalidSequence(sequence: int)
    | DuplicateSequence(sequence: int)
    | MultipleOutcomes(sequence: int)
    | Unacknowledged(sequence: int)
    | Unresolved(sequence: int)
    | ResolvedTwice(sequence: int)
    | UnknownWorker(worker: string)

  // ---------- what the oracle accepts ----------

  predicate IsSequence(value: int) {
    0 <= value <= MAX_SAFE_INTEGER
  }

  ghost predicate Listed(values: seq<int>) {
    Distinct(values) && forall i :: 0 <= i < |values| ==> IsSequence(values[i])
  }

  ghost predicate OutcomesListed(o: QueueOutcome) {
    && Listed(o.acknowledged) && Listed(o.ambiguousEnqueues) && Listed(o.failedEnqueues)
    && Listed(o.completed) && Listed(o.ambiguousCompletions)
  }

  /** Every message got one enqueue outcome. */
  ghost predicate OutcomesDisjoint(o: QueueOutcome) {
    var acknowledged, ambiguous, failed :=
      ToSet(o.acknowledged), ToSet(o.ambiguousEnqueues), ToSet(o.failedEnqueues);
    acknowledged !! ambiguous && acknowledged !! failed && ambiguous !! failed
  }

  /**
   * Exactly once, up to what the client could not know: only messages that may have been stored
   * ever come out, none comes out twice, and an acknowledged message comes out unless a
   * completion of it stayed ambiguous.
   */
  ghost predicate ExactlyOnce(o: QueueOutcome, observed: seq<int>) {
    var stored := ToSet(o.acknowledged) + ToSet(o.ambiguousEnqueues);
    var completed, drained, unsure := ToSet(o.completed), ToSet(observed), ToSet(o.ambiguousCompletions);
    && completed + unsure + drained <= stored
    && completed !! drained
    && ToSet(o.acknowledged) - unsure <= completed + drained
  }

  ghost predicate WorkerReconciled(o: QueueOutcome, observed: seq<int>) {
    && OutcomesListed(o)
    && OutcomesDisjoint(o)
    && Listed(observed)
    && ExactlyOnce(o, observed)
  }

  function ObservedBy(observedByWorker: map<string, seq<int>>, worker: string): seq<int> {
    if worker in observedByWorker then observedByWorker[worker] else []
  }

  ghost predicate ReconciledAlone(o: QueueOutcome, observedByWorker: map<string, seq<int>>) {
    WorkerReconciled(o, ObservedBy(observedByWorker, o.worker))
  }

  ghost predicate AllReconciled(outcomes: seq<QueueOutcome>, observedByWorker: map<string, seq<int>>) {
    forall i :: 0 <= i < |outcomes| ==> ReconciledAlone(outcomes[i], observedByWorker)
  }

  lemma AllReconciledNext(outcomes: seq<QueueOutcome>, observedByWorker: map<string, seq<int>>, i: nat)
    requires i < |outcomes| && AllReconciled(outcomes[..i], observedByWorker)
    ensures AllReconciled(outcomes[..i + 1], observedByWorker) <==> ReconciledAlone(outcomes[i], observedByWorker)
    ensures !ReconciledAlone(outcomes[i], observedByWorker) ==> !AllReconciled(outcomes, observedByWorker)
  {
    var next := outcomes[..i + 1];
    assert next[i] == outcomes[i] && forall j :: 0 <= j < i ==> next[j] == outcomes[..i][j];
  }

  ghost predicate Known(outcomes: seq<QueueOutcome>, worker: string) {
    exists i :: 0 <= i < |outcomes| && outcomes[i].worker == worker
  }

  ghost predicate Reconciled(outcomes: seq<QueueOutcome>, observedByWorker: map<string, seq<int>>) {
    && AllReconciled(outcomes, observedByWorker)
    && forall worker :: worker in observedByWorker ==> Known(outcomes, worker)
  }

  /** Nothing was drained for a worker that reported no outcome. */
  lemma DrainedWorkersReport(outcomes: seq<QueueOutcome>, observedByWorker: map<string, seq<int>>, worker: string)
    requires Reconciled(outcomes, observedByWorker) && worker in observedByWorker
    ensures exists i :: 0 <= i < |outcomes| && outcomes[i].worker == worker
  {
    assert Known(outcomes, worker);
  }

  function AddTotals(t: Totals, o: QueueOutcome, observed: seq<int>): Totals {
    Totals(t.acknowledged + |o.acknowledged|, t.ambiguousEnqueues + |o.ambiguousEnqueues|,
           t.failedEnqueues + |o.failedEnqueues|, t.completed + |o.completed|,
           t.ambiguousCompletions + |o.ambiguousCompletions|, t.observed + |observed|)
  }

  function TotalsOf(outcomes: seq<QueueOutcome>, observedByWorker: map<string, seq<int>>): Totals {
    if outcomes == [] then Totals(0, 0, 0, 0, 0, 0)
    else
      var last := outcomes[|outcomes| - 1];
      AddTotals(TotalsOf(outcomes[..|outcomes| - 1], observedByWorker), last, ObservedBy(observedByWorker, last.worker))
  }

  function Acknowledged(o: QueueOutcome): seq<int> { o.acknowledged }
  function AmbiguousEnqueues(o: QueueOutcome): seq<int> { o.ambiguousEnqueues }
  function FailedEnqueues(o: QueueOutcome): seq<int> { o.failedEnqueues }
  function Completed(o: QueueOutcome): seq<int> { o.completed }
  function AmbiguousCompletions(o: QueueOutcome): seq<int> { o.ambiguousCompletions }

  /** One list of every worker, one after the other. */
  function AllOf(outcomes: seq<QueueOutcome>, list: QueueOutcome -> seq<int>): seq<int> {
    if outcomes == [] then []
    else AllOf(outcomes[..|outcomes| - 1], list) + list(outcomes[|outcomes| - 1])
  }

  /** What was drained for every worker, one after the other. */
  function AllObserved(outcomes: seq<QueueOutcome>, observedByWorker: map<string, seq<int>>): seq<int> {
    if outcomes == [] then []
    else
      AllObserved(outcomes[..|outcomes| - 1], observedByWorker)
      + ObservedBy(observedByWorker, outcomes[|outcomes| - 1].worker)
  }

  /** Each total is the size of its own lists, taken together. */
  lemma {:induction false} TotalsCount(outcomes: seq<QueueOutcome>, observedByWorker: map<string, seq<int>>)
    ensures var t := TotalsOf(outcomes, observedByWorker);
            && t.acknowledged == |AllOf(outcomes, Acknowledged)|
            && t.ambiguousEnqueues == |AllOf(outcomes, AmbiguousEnqueues)|
            && t.failedEnqueues == |AllOf(outcomes, FailedEnqueues)|
            && t.completed == |AllOf(outcomes, Completed)|
            && t.ambiguousCompletions == |AllOf(outcomes, AmbiguousCompletions)|
            && t.observed == |AllObserved(outcomes, observedByWorker)|
  {
    if outcomes != [] {
      TotalsCount(outcomes[..|outcomes| - 1], observedByWorker);
    }
  }

  lemma TotalsOfNext(outcomes: seq<QueueOutcome>, observedByWorker: map<string, seq<int>>, i: nat)
    requires i < |outcomes|
    ensures TotalsOf(outcomes[..i + 1], observedByWorker)
         == AddTotals(TotalsOf(outcomes[..i], observedByWorker), outcomes[i], ObservedBy(observedByWorker, outcomes[i].worker))
  {
    assert outcomes[..i + 1][..i] == outcomes[..i] && outcomes[..i + 1][i] == outcomes[i];
  }

  /** What the report shows of one worker: its outcome record and its drained messages, sorted. */
  function ClientOf(o: QueueOutcome, observedByWorker: map<string, seq<int>>): (QueueOutcome, seq<int>) {
    (o, Sort(ObservedBy(observedByWorker, o.worker)))
  }

  function ClientsOf(outcomes: seq<QueueOutcome>, observedByWorker: map<string, seq<int>>): seq<(QueueOutcome, seq<int>)> {
    if outcomes == [] then []
    else
      ClientsOf(outcomes[..|outcomes| - 1], observedByWorker) + [ClientOf(outcomes[|outcomes| - 1], observedByWorker)]
  }

  lemma ClientsOfNext(outcomes: seq<QueueOutcome>, observedByWorker: map<string, seq<int>>, i: nat)
    requires i < |outcomes|
    ensures ClientsOf(outcomes[..i + 1], observedByWorker)
         == ClientsOf(outcomes[..i], observedByWorker) + [ClientOf(outcomes[i], observedByWorker)]
  {
    assert outcomes[..i + 1][..i] == outcomes[..i] && outcomes[..i + 1][i] == outcomes[i];
  }

  /** The report lists the workers in order, each with a sorted rearrangement of what was drained for it. */
  lemma {:induction false} ClientsInOrder(outcomes: seq<QueueOutcome>, observedByWorker: map<string, seq<int>>, i: nat)
    requires i < |outcomes|
    ensures |ClientsOf(outcomes, observedByWorker)| == |outcomes|
    ensures var (outcome, observed) := ClientsOf(outcomes, observedByWorker)[i];
            && outcome == outcomes[i]
            && Sorted(observed)
            && multiset(observed) == multiset(ObservedBy(observedByWorker, outcomes[i].worker))
  {
    var front := outcomes[..|outcomes| - 1];
    if front != [] {
      ClientsInOrder(front, observedByWorker, if i < |front| then i else 0);
    }
  }

  // ---------- what the errors say ----------

  ghost predicate Repeats(values: seq<int>, x: int) {
    exists i, j :: 0 <= i < j < |values| && values[i] == values[j] == x
  }

  /** The error of a list names an entry of it that is no sequence number, or that it has twice. */
  ghost predicate BlamesList(e: ReconcileError, values: seq<int>) {
    match e
    case InvalidSequence(x) => x in values && !(0 <= x < 0x20_0000_0000_0000)
    case DuplicateSequence(x) => Repeats(values, x)
    case _ => false
  }

  /** The error about one worker names the message that is at fault. */
  ghost predicate BlamesWorker(e: ReconcileError, o: QueueOutcome, observed: seq<int>) {
    match e
    case InvalidSequence(_) => BlamesSomeList(e, o, observed)
    case DuplicateSequence(_) => BlamesSomeList(e, o, observed)
    case MultipleOutcomes(x) =>
      || (x in o.acknowledged && x in o.ambiguousEnqueues)
      || (x in o.acknowledged && x in o.failedEnqueues)
      || (x in o.ambiguousEnqueues && x in o.failedEnqueues)
    case Unacknowledged(x) =>
      && (x in o.completed || x in o.ambiguousCompletions || x in observed)
      && x !in o.acknowledged && x !in o.ambiguousEnqueues
    case Unresolved(x) =>
      x in o.acknowledged && x !in o.completed && x !in observed && x !in o.ambiguousCompletions
    case ResolvedTwice(x) => x in o.completed && x in observed
    case UnknownWorker(_) => false
  }

  ghost predicate BlamesSomeList(e: ReconcileError, o: QueueOutcome, observed: seq<int>) {
    || BlamesList(e, o.acknowledged) || BlamesList(e, o.ambiguousEnqueues) || BlamesList(e, o.failedEnqueues)
    || BlamesList(e, o.completed) || BlamesList(e, o.ambiguousCompletions) || BlamesList(e, observed)
  }

  ghost predicate Blames(e: ReconcileError, outcomes: seq<QueueOutcome>, observedByWorker: map<string, seq<int>>) {
    if e.UnknownWorker? then e.worker in observedByWorker && !Known(outcomes, e.worker)
    else exists i :: 0 <= i < |outcomes| && BlamesWorker(e, outcomes[i], ObservedBy(observedByWorker, outcomes[i].worker))
  }

  // ---------- the checks ----------

  method AssertUnique(values: seq<int>) returns (error: Option<ReconcileError>)
    ensures error.None? <==> Listed(values)
    ensures error.Some? ==> BlamesList(error.value, values)
  {
    var seen: set<int> := {};
    for i := 0 to |values|
      invariant seen == ToSet(values[..i]) && Listed(values[..i])
    {
      var value := values[i];
      assert values[..i + 1] == values[..i] + [value];
      ToSetAppend(values[..i], value);
      if !IsSequence(value) {
        return Some(InvalidSequence(value));
      }
      if value in seen {
        var j :| 0 <= j < i && values[..i][j] == value;
        assert values[j] == values[i];
        return Some(DuplicateSequence(value));
      }
      seen := seen + {value};
    }
    assert values[..|values|] == values;
    return None;
  }

  /** The lists of the outcome record, in its own order; the drained list is checked later. */
  method AssertAllUnique(o: QueueOutcome) returns (error: Option<ReconcileError>)
    ensures error.None? <==> OutcomesListed(o)
    ensures error.Some? ==> BlamesSomeList(error.value, o, [])
  {
    var lists := [o.acknowledged, o.ambiguousEnqueues, o.failedEnqueues, o.completed, o.ambiguousCompletions];
    for i := 0 to |lists|
      invariant forall j :: 0 <= j < i ==> Listed(lists[j])
    {
      error := AssertUnique(lists[i]);
      if error.Some? {
        return;
      }
    }
    assert lists[0] == o.acknowledged && lists[1] == o.ambiguousEnqueues && lists[2] == o.failedEnqueues;
    assert lists[3] == o.completed && lists[4] == o.ambiguousCompletions;
    return None;
  }

  method AssertDisjoint(o: QueueOutcome) returns (error: Option<ReconcileError>)
    ensures error.None? <==> OutcomesDisjoint(o)
    ensures error.Some? ==> error.value.MultipleOutcomes? && BlamesWorker(error.value, o, [])
  {
    var ambiguous, failed := ToSet(o.ambiguousEnqueues), ToSet(o.failedEnqueues);
    for i := 0 to |o.acknowledged|
      invariant forall j :: 0 <= j < i ==> o.acknowledged[j] !in ambiguous + failed
    {
      if o.acknowledged[i] in ambiguous || o.acknowledged[i] in failed {
        assert o.acknowledged[i] in ToSet(o.acknowledged);
        return Some(MultipleOutcomes(o.acknowledged[i]));
      }
    }
    for i := 0 to |o.ambiguousEnqueues|
      invariant forall j :: 0 <= j < i ==> o.ambiguousEnqueues[j] !in failed
    {
      if o.ambiguousEnqueues[i] in failed {
        assert o.ambiguousEnqueues[i] in ambiguous;
        return Some(MultipleOutcomes(o.ambiguousEnqueues[i]));
      }
    }
    return None;
  }

  /** The loops over completed, drained, failed, acknowledged and ambiguous messages. */
  method AssertExactlyOnce(o: QueueOutcome, observedValues: seq<int>) returns (error: Option<ReconcileError>)
    requires OutcomesDisjoint(o)
    ensures error.None? <==> ExactlyOnce(o, observedValues)
    ensures error.Some? ==> BlamesWorker(error.value, o, observedValues)
  {
    var acknowledged, ambiguous, failed :=
      ToSet(o.acknowledged), ToSet(o.ambiguousEnqueues), ToSet(o.failedEnqueues);
    var completed, unsure, observed :=
      ToSet(o.completed), ToSet(o.ambiguousCompletions), ToSet(observedValues);
    var visible := o.completed + o.ambiguousCompletions + observedValues;
    assert ToSet(visible) == completed + unsure + observed;
    for i := 0 to |visible|
      invariant forall j :: 0 <= j < i ==> visible[j] in acknowledged + ambiguous
    {
      if visible[i] !in acknowledged && visible[i] !in ambiguous {
        assert visible[i] in ToSet(visible);
        return Some(Unacknowledged(visible[i]));
      }
    }
    assert completed + unsure + observed <= acknowledged + ambiguous;
    // The source looks for failed enqueues that became visible here and reports them as such: the
    // loop above has rejected them already, as a failed enqueue has no other outcome.
    for i := 0 to |o.failedEnqueues| {
      var s := o.failedEnqueues[i];
      assert s in failed;
      if s in completed || s in unsure || s in observed {
        assert false;
      }
    }
    for i := 0 to |o.acknowledged|
      invariant forall j :: 0 <= j < i ==>
                  var s := o.acknowledged[j];
                  !(s in completed && s in observed) && (s in unsure || s in completed || s in observed)
    {
      var s := o.acknowledged[i];
      var count := (if s in completed then 1 else 0) + (if s in observed then 1 else 0);
      var minimum := if s in unsure then 0 else 1;
      assert s in acknowledged;
      if count < minimum {
        return Some(Unresolved(s));
      }
      if count > 1 {
        return Some(ResolvedTwice(s));
      }
    }
    for i := 0 to |o.ambiguousEnqueues|
      invariant forall j :: 0 <= j < i ==> !(o.ambiguousEnqueues[j] in completed && o.ambiguousEnqueues[j] in observed)
    {
      var s := o.ambiguousEnqueues[i];
      if s in completed && s in observed {
        return Some(ResolvedTwice(s));
      }
    }
    return None;
  }

  method ReconcileWorker(o: QueueOutcome, observed: seq<int>) returns (error: Option<ReconcileError>)
    ensures error.None? <==> WorkerReconciled(o, observed)
    ensures error.Some? ==> BlamesWorker(error.value, o, observed)
  {
    error := AssertAllUnique(o);
    if error.None? {
      error := AssertDisjoint(o);
      if error.None? {
        error := AssertUnique(observed);
        if error.None? {
          error := AssertExactlyOnce(o, observed);
        }
      }
    }
  }

  /** One round of the loop over the outcome records. */
  method ReconcileClient(o: QueueOutcome, observedByWorker: map<string, seq<int>>, totals: Totals)
    returns (r: Result<(Totals, (QueueOutcome, seq<int>)), ReconcileError>)
    ensures r.Ok? <==> ReconciledAlone(o, observedByWorker)
    ensures r.Ok? ==> r.value.0 == AddTotals(totals, o, ObservedBy(observedByWorker, o.worker))
    ensures r.Ok? ==> r.value.1 == ClientOf(o, observedByWorker)
    ensures r.Err? ==> BlamesWorker(r.error, o, ObservedBy(observedByWorker, o.worker))
  {
    var observed := ObservedBy(observedByWorker, o.worker);
    var error := ReconcileWorker(o, observed);
    if error.Some? {
      return Err(error.value);
    }
    return Ok((AddTotals(totals, o, observed), ClientOf(o, observedByWorker)));
  }

  method ReconcileClients(outcomes: seq<QueueOutcome>, observedByWorker: map<string, seq<int>>)
    returns (r: Result<Reconciliation, ReconcileError>)
    ensures r.Ok? <==> AllReconciled(outcomes, observedByWorker)
    ensures r.Err? ==> Blames(r.error, outcomes, observedByWorker)
    ensures r.Ok? ==> r.value.totals == TotalsOf(outcomes, observedByWorker)
    ensures r.Ok? ==> r.value.clients == ClientsOf(outcomes, observedByWorker)
  {
    var totals := Totals(0, 0, 0, 0, 0, 0);
    var clients: seq<(QueueOutcome, seq<int>)> := [];
    for i := 0 to |outcomes|
      invariant totals == TotalsOf(outcomes[..i], observedByWorker)
      invariant AllReconciled(outcomes[..i], observedByWorker)
      invariant clients == ClientsOf(outcomes[..i], observedByWorker)
    {
      var client := ReconcileClient(outcomes[i], observedByWorker, totals);
      AllReconciledNext(outcomes, observedByWorker, i);
      TotalsOfNext(outcomes, observedByWorker, i);
      ClientsOfNext(outcomes, observedByWorker, i);
      if client.Err? {
        return Err(client.error);
      }
      totals := client.value.0;
      clients := clients + [client.value.1];
    }
    assert outcomes[..|outcomes|] == outcomes;
    return Ok(Reconciliation(totals, clients));
  }

  method FindUnknownWorker(outcomes: seq<QueueOutcome>, observedByWorker: map<string, seq<int>>)
    returns (unknown: Option<string>)
    ensures unknown.None? <==> forall worker :: worker in observedByWorker ==> Known(outcomes, worker)
    ensures unknown.Some? ==> unknown.value in observedByWorker && !Known(outcomes, unknown.value)
  {
    var workers := observedByWorker.Keys;
    while workers != {}
      invariant workers <= observedByWorker.Keys
      invariant forall w :: w in observedByWorker.Keys - workers ==> Known(outcomes, w)
    {
      var worker :| worker in workers;
      if !exists i :: 0 <= i < |outcomes| && outcomes[i].worker == worker {
        return Some(worker);
      }
      workers := workers - {worker};
    }
    return None;
  }

  method ReconcileQueueOutcomes(outcomes: seq<QueueOutcome>, observedByWorker: map<string, seq<int>>)
    returns (r: Result<Reconciliation, ReconcileError>)
    ensures r.Ok? <==> Reconciled(outcomes, observedByWorker)
    ensures r.Err? ==> Blames(r.error, outcomes, observedByWorker)
    ensures r.Ok? ==> r.value.totals == TotalsOf(outcomes, observedByWorker)
    ensures r.Ok? ==> r.value.clients == ClientsOf(outcomes, observedByWorker)
  {
    r := ReconcileClients(outcomes, observedByWorker);
    if r.Ok? {
      var unknown := FindUnknownWorker(outcomes, observedByWorker);
      if unknown.Some? {
        return Err(UnknownWorker(unknown.value));
      }
    }
  }

  // ---------- what acceptance says about the totals ----------

  /** Nothing stored is invented and nothing acknowledged is lost, counted per worker. */
  lemma WorkerBounds(o: QueueOutcome, observed: seq<int>)
    requires WorkerReconciled(o, observed)
    ensures ToSet(o.completed) !! ToSet(observed)
    ensures |o.acknowledged| - |o.ambiguousCompletions| <= |o.completed| + |observed|
    ensures |o.completed| + |observed| <= |o.acknowledged| + |o.ambiguousEnqueues|
  {
    var acknowledged, ambiguous := ToSet(o.acknowledged), ToSet(o.ambiguousEnqueues);
    var completed, unsure, drained := ToSet(o.completed), ToSet(o.ambiguousCompletions), ToSet(observed);
    SetSize(o.acknowledged);
    SetSize(o.ambiguousEnqueues);
    SetSize(o.completed);
    SetSize(o.ambiguousCompletions);
    SetSize(observed);
    assert completed * drained == {} && acknowledged * ambiguous == {};
    SubsetSize(completed + drained, acknowledged + ambiguous);
    SubsetSize(acknowledged, completed + drained + unsure);
  }

  /** The bounds add up over any number of workers. */
  lemma {:induction false} TotalsBound(outcomes: seq<QueueOutcome>, observedByWorker: map<string, seq<int>>)
    requires Reconciled(outcomes, observedByWorker)
    ensures var t := TotalsOf(outcomes, observedByWorker);
            t.acknowledged - t.ambiguousCompletions <= t.completed + t.observed <= t.acknowledged + t.ambiguousEnqueues
  {
    PrefixBound(outcomes, observedByWorker);
  }

  lemma {:induction false} PrefixBound(outcomes: seq<QueueOutcome>, observedByWorker: map<string, seq<int>>)
    requires AllReconciled(outcomes, observedByWorker)
    ensures var t := TotalsOf(outcomes, observedByWorker);
            t.acknowledged - t.ambiguousCompletions <= t.completed + t.observed <= t.acknowledged + t.ambiguousEnqueues
  {
    if outcomes != [] {
      var last := outcomes[|outcomes| - 1];
      assert ReconciledAlone(last, observedByWorker);
      PrefixBound(outcomes[..|outcomes| - 1], observedByWorker);
      WorkerBounds(last, ObservedBy(observedByWorker, last.worker));
    }
  }
}
