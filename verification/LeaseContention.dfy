/**
 * Whole contention runs: contenders that enter one at a time and number their entries
 * (src/workloads/lease-contention.ts), their logs, and the verdict on them
 * (src/orchestration/lease-contention.ts).
 */
module LeaseContention {
  import opened Wrappers
  import opened Sequences
  import opened LeaseAdmissions

  // ---------- the verdict ----------

  /** What the logs must say for reading and checking them to pass. */
  ghost predicate Accepted(logs: seq<seq<Record>>, expected: nat, participants: nat) {
    AllWellFormed(Flatten(logs)) && Admitted(AdmissionsIn(Flatten(logs)), expected, participants)
  }

  /** `assertLeaseAdmissions(leaseAdmissions(logs), ...)`. */
  method JudgeContention(logs: seq<seq<Record>>, expected: nat, participants: nat) returns (error: Option<LeaseError>)
    ensures error.None? <==> Accepted(logs, expected, participants)
  {
    var admissions := ReadAdmissions(logs);
    if admissions.Err? {
      return Some(admissions.error);
    }
    error := AssertLeaseAdmissions(admissions.value, expected, participants);
  }

  // ---------- the run ----------

  /** Who entered the leased section, with which fencing token, in order of time. */
  type Entries = seq<(string, int)>

  function EntriesBy(entered: Entries, p: string): nat {
    if entered == [] then 0
    else EntriesBy(entered[..|entered| - 1], p) + (if entered[|entered| - 1].0 == p then 1 else 0)
  }

  function Entrants(entered: Entries): set<string> {
    set i | 0 <= i < |entered| :: entered[i].0
  }

  ghost predicate TokensDistinct(entered: Entries) {
    forall i, j :: 0 <= i < j < |entered| ==> entered[i].1 != entered[j].1
  }

  /** What the contenders log of it: each numbers its own entries from zero. */
  function Contention(entered: Entries): (r: seq<Admission>)
    ensures |r| == |entered|
    ensures forall i :: 0 <= i < |r| ==> r[i].participant == entered[i].0 && r[i].fencingToken == entered[i].1
  {
    if entered == [] then []
    else
      var front, last := entered[..|entered| - 1], entered[|entered| - 1];
      Contention(front) + [Admission(last.0, EntriesBy(front, last.0), last.1)]
  }

  lemma {:induction false} ContentionCounts(entered: Entries, p: string)
    ensures SequencesOf(Contention(entered), p) == Range(EntriesBy(entered, p))
  {
    if entered != [] {
      var front := entered[..|entered| - 1];
      ContentionCounts(front, p);
      assert Contention(entered)[..|front|] == Contention(front);
    }
  }

  /** Everybody entered equally often, and there are as many contenders and entries as expected. */
  ghost predicate Fair(entered: Entries, expected: nat, participants: nat) {
    && |entered| == expected
    && |Entrants(entered)| == participants
    && forall p :: p in Entrants(entered) ==> EntriesBy(entered, p) * participants == expected
  }

  lemma EntrantsAdmitted(entered: Entries)
    ensures Participants(Contention(entered)) == Entrants(entered)
  {
    var admissions := Contention(entered);
    forall p ensures p in Participants(admissions) <==> p in Entrants(entered) {
      if p in Participants(admissions) {
        var i :| 0 <= i < |admissions| && admissions[i].participant == p;
        assert entered[i].0 == p;
      }
      if p in Entrants(entered) {
        var i :| 0 <= i < |entered| && entered[i].0 == p;
        assert admissions[i].participant == p;
      }
    }
  }

  /** Each entrant has a full share exactly when it entered that often. */
  lemma EachHasIff(entered: Entries, share: nat)
    ensures EachHas(Contention(entered), share) <==> forall p :: p in Entrants(entered) ==> EntriesBy(entered, p) == share
  {
    EntrantsAdmitted(entered);
    forall p | p in Entrants(entered)
      ensures multiset(SequencesOf(Contention(entered), p)) == multiset(Range(share)) <==> EntriesBy(entered, p) == share
    {
      ContentionCounts(entered, p);
      assert |multiset(Range(EntriesBy(entered, p)))| == EntriesBy(entered, p) && |multiset(Range(share))| == share;
    }
  }

  lemma SameShare(a: nat, b: nat, n: nat)
    requires n > 0 && a * n == b * n
    ensures a == b
  {
    FloorShare(a, n);
    FloorShare(b, n);
  }

  lemma FairShares(entered: Entries, expected: nat, participants: nat)
    requires Fair(entered, expected, participants)
    ensures exists share: nat :: share * participants == expected && EachHas(Contention(entered), share)
  {
    var share := 0;
    if entered != [] {
      var first := entered[0].0;
      assert first in Entrants(entered);
      share := EntriesBy(entered, first);
      SubsetSize({first}, Entrants(entered));
      forall p | p in Entrants(entered) ensures EntriesBy(entered, p) == share {
        SameShare(EntriesBy(entered, p), share, participants);
      }
    }
    EachHasIff(entered, share);
    SharedOut(share, participants, expected, Contention(entered));
  }

  /** The oracle accepts the entries of a run exactly when they are fairly shared and no token was used twice. */
  lemma ContentionAdmittedIff(entered: Entries, expected: nat, participants: nat)
    ensures Admitted(Contention(entered), expected, participants) <==>
              TokensDistinct(entered) && Fair(entered, expected, participants)
  {
    var admissions := Contention(entered);
    EntrantsAdmitted(entered);
    assert Distinct(Tokens(admissions)) <==> TokensDistinct(entered) by {
      forall i, j | 0 <= i < j < |entered|
        ensures Tokens(admissions)[i] != Tokens(admissions)[j] <==> entered[i].1 != entered[j].1 {}
    }
    if Admitted(admissions, expected, participants) {
      AdmittedIsChecked(admissions, expected, participants);
      var share: nat :| share * participants == expected && EachHas(admissions, share);
      EachHasIff(entered, share);
    }
    if Fair(entered, expected, participants) {
      FairShares(entered, expected, participants);
    }
  }

  // ---------- the logs of the contenders ----------

  /** The admissions of one contender, in order. */
  function Own(admissions: seq<Admission>, p: string): seq<Admission> {
    if admissions == [] then []
    else
      var front, last := Own(admissions[..|admissions| - 1], p), admissions[|admissions| - 1];
      if last.participant == p then front + [last] else front
  }

  /** A contender's log shows its own entries, in order, among other events. */
  ghost predicate Writes(log: seq<Record>, entered: Entries, p: string) {
    AllWellFormed(log) && AdmissionsIn(log) == Own(Contention(entered), p)
  }

  /** One log for each contender, in any order. */
  ghost predicate LogsOf(logs: seq<seq<Record>>, contenders: seq<string>, entered: Entries) {
    && |logs| == |contenders| && Distinct(contenders)
    && (forall i :: 0 <= i < |entered| ==> entered[i].0 in contenders)
    && forall i :: 0 <= i < |logs| ==> Writes(logs[i], entered, contenders[i])
  }

  lemma {:induction false} OwnCount(admissions: seq<Admission>, p: string, x: Admission)
    ensures multiset(Own(admissions, p))[x] == if x.participant == p then multiset(admissions)[x] else 0
  {
    if admissions != [] {
      var front, last := admissions[..|admissions| - 1], admissions[|admissions| - 1];
      OwnCount(front, p, x);
      assert admissions == front + [last];
    }
  }

  /** Read log by log, each admission of a contender is found as often as it happened. */
  lemma {:induction false} LoggedCount(logs: seq<seq<Record>>, contenders: seq<string>, entered: Entries, x: Admission)
    requires |logs| == |contenders| && Distinct(contenders)
    requires forall i :: 0 <= i < |logs| ==> Writes(logs[i], entered, contenders[i])
    ensures AllWellFormed(Flatten(logs))
    ensures multiset(AdmissionsIn(Flatten(logs)))[x]
         == if x.participant in contenders then multiset(Contention(entered))[x] else 0
    decreases |logs|
  {
    if logs != [] {
      var p, rest := contenders[0], contenders[1..];
      assert contenders == [p] + rest;
      DistinctParts([p], rest);
      assert p !in rest by {
        forall i | 0 <= i < |rest| ensures rest[i] != p { assert contenders[i + 1] == rest[i]; }
      }
      assert Writes(logs[0], entered, p);
      forall i | 0 <= i < |logs[1..]| ensures Writes(logs[1..][i], entered, rest[i]) {
        assert Writes(logs[i + 1], entered, contenders[i + 1]);
      }
      LoggedCount(logs[1..], rest, entered, x);
      AdmissionsConcat(logs[0], Flatten(logs[1..]));
      OwnCount(Contention(entered), p, x);
    }
  }

  /** The list that is checked is a rearrangement of what happened. */
  lemma LogsRearrange(logs: seq<seq<Record>>, contenders: seq<string>, entered: Entries)
    requires LogsOf(logs, contenders, entered)
    ensures AllWellFormed(Flatten(logs)) && multiset(AdmissionsIn(Flatten(logs))) == multiset(Contention(entered))
  {
    LoggedCount(logs, contenders, entered, Admission("", 0, 0));
    var read, admissions := AdmissionsIn(Flatten(logs)), Contention(entered);
    forall x ensures multiset(read)[x] == multiset(admissions)[x] {
      LoggedCount(logs, contenders, entered, x);
      if x in admissions {
        var i :| 0 <= i < |admissions| && admissions[i] == x;
        assert entered[i].0 == x.participant;
      }
    }
  }

  function Logged(admissions: seq<Admission>): (r: seq<Record>)
    ensures |r| == |admissions|
  {
    seq(|admissions|, i requires 0 <= i < |admissions| =>
      Entered(Some(admissions[i].participant), Some(admissions[i].sequence), Some(admissions[i].fencingToken)))
  }

  lemma {:induction false} LoggedReads(admissions: seq<Admission>)
    ensures AllWellFormed(Logged(admissions)) && AdmissionsIn(Logged(admissions)) == admissions
  {
    if admissions != [] {
      var front := admissions[..|admissions| - 1];
      LoggedReads(front);
      assert Logged(admissions)[..|front|] == Logged(front);
    }
  }

  /** Every run has logs, whoever took part. */
  lemma RunIsLogged(contenders: seq<string>, entered: Entries) returns (logs: seq<seq<Record>>)
    requires Distinct(contenders) && forall i :: 0 <= i < |entered| ==> entered[i].0 in contenders
    ensures LogsOf(logs, contenders, entered)
  {
    var admissions := Contention(entered);
    logs := seq(|contenders|, i requires 0 <= i < |contenders| => Logged(Own(admissions, contenders[i])));
    forall i | 0 <= i < |logs| ensures Writes(logs[i], entered, contenders[i]) {
      LoggedReads(Own(admissions, contenders[i]));
    }
  }

  // ---------- which runs pass ----------

  /** Whatever the interleaving of the contenders and the order of their logs. */
  lemma RunAcceptedIff(logs: seq<seq<Record>>, contenders: seq<string>, entered: Entries, expected: nat, participants: nat)
    requires LogsOf(logs, contenders, entered)
    ensures Accepted(logs, expected, participants) <==>
              TokensDistinct(entered) && Fair(entered, expected, participants)
  {
    LogsRearrange(logs, contenders, entered);
    AdmittedAnyOrder(AdmissionsIn(Flatten(logs)), Contention(entered), expected, participants);
    ContentionAdmittedIff(entered, expected, participants);
  }

  lemma {:induction false} EntrantsCount(entered: Entries, p: string)
    ensures EntriesBy(entered, p) > 0 <==> p in Entrants(entered)
  {
    if entered != [] {
      var front, last := entered[..|entered| - 1], entered[|entered| - 1];
      EntrantsCount(front, p);
      assert Entrants(entered) == Entrants(front) + {last.0};
    }
  }

  lemma EveryoneEntered(contenders: seq<string>, entered: Entries, entries: nat)
    requires Distinct(contenders) && entries > 0
    requires forall i :: 0 <= i < |entered| ==> entered[i].0 in contenders
    requires forall p :: p in contenders ==> EntriesBy(entered, p) == entries
    ensures Entrants(entered) == ToSet(contenders) && |Entrants(entered)| == |contenders|
  {
    SetSize(contenders);
    forall p ensures p in Entrants(entered) <==> p in contenders {
      EntrantsCount(entered, p);
    }
  }

  lemma EverybodyFair(contenders: seq<string>, entered: Entries, entries: nat)
    requires Distinct(contenders) && entries > 0
    requires forall i :: 0 <= i < |entered| ==> entered[i].0 in contenders
    requires forall p :: p in contenders ==> EntriesBy(entered, p) == entries
    ensures Fair(entered, entries * |contenders|, |contenders|)
  {
    EveryoneEntered(contenders, entered, entries);
    EntrantsAdmitted(entered);
    forall p ensures |SequencesOf(Contention(entered), p)| == EntriesBy(entered, p) {
      ContentionCounts(entered, p);
    }
    CountEverybody(Contention(entered), Entrants(entered));
    EqualShares(Contention(entered), Entrants(entered), entries);
  }

  /** When every contender is done, its run is accepted exactly when no fencing token was handed out twice. */
  lemma FinishedRunAcceptedIff(logs: seq<seq<Record>>, contenders: seq<string>, entered: Entries, entries: nat)
    requires LogsOf(logs, contenders, entered) && entries > 0
    requires forall p :: p in contenders ==> EntriesBy(entered, p) == entries
    ensures Accepted(logs, entries * |contenders|, |contenders|) <==> TokensDistinct(entered)
  {
    EverybodyFair(contenders, entered, entries);
    RunAcceptedIff(logs, contenders, entered, entries * |contenders|, |contenders|);
  }

  /** So under a lease whose tokens grow, every finished run is accepted. */
  lemma SoundLeaseAccepted(logs: seq<seq<Record>>, contenders: seq<string>, entered: Entries, entries: nat)
    requires LogsOf(logs, contenders, entered) && entries > 0
    requires forall p :: p in contenders ==> EntriesBy(entered, p) == entries
    requires forall i, j :: 0 <= i < j < |entered| ==> entered[i].1 < entered[j].1
    ensures Accepted(logs, entries * |contenders|, |contenders|)
  {
    FinishedRunAcceptedIff(logs, contenders, entered, entries);
  }
}
