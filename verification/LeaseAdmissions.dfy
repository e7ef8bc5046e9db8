/** The mutual-exclusion oracle of the lease contention run (src/orchestration/lease-contention.ts). */
module LeaseAdmissions {
  import opened Wrappers
  import opened Sequences

  datatype Admission = Admission(participant: string, sequence: nat, fencingToken: int)

  /** A log record: an entry into the leased section with the fields that parsed, or any other event. */
  datatype Record =
    | Entered(participant: Option<string>, sequence: Option<nat>, fencingToken: Option<int>)
    | Other

  datatype LeaseError =
    | Omitted
    | WrongCount(admitted: nat)
    | ReusedToken
    | WrongContenders(admitted: nat)
    | Incomplete(participant: string)

  // ---------- reading the logs ----------

  predicate WellFormed(r: Record) {
    r.Entered? ==> r.participant.Some? && r.sequence.Some? && r.fencingToken.Some?
  }

  predicate AllWellFormed(records: seq<Record>) {
    forall i :: 0 <= i < |records| ==> WellFormed(records[i])
  }

  function AdmissionsIn(records: seq<Record>): seq<Admission>
    requires AllWellFormed(records)
  {
    if records == [] then []
    else
      var front, r := AdmissionsIn(records[..|records| - 1]), records[|records| - 1];
      assert WellFormed(r);
      if r.Other? then front
      else front + [Admission(r.participant.value, r.sequence.value, r.fencingToken.value)]
  }

  lemma {:induction false} AdmissionsConcat(a: seq<Record>, b: seq<Record>)
    requires AllWellFormed(a) && AllWellFormed(b)
    ensures AllWellFormed(a + b) && AdmissionsIn(a + b) == AdmissionsIn(a) + AdmissionsIn(b)
    decreases |b|
  {
    if b == [] {
      assert a + b == a;
    } else {
      var front := b[..|b| - 1];
      assert (a + b)[..|a + b| - 1] == a + front;
      AdmissionsConcat(a, front);
    }
  }

  /** The innermost loop: one log. */
  method ReadLog(log: seq<Record>) returns (r: Result<seq<Admission>, LeaseError>)
    ensures r.Ok? <==> AllWellFormed(log)
    ensures r.Ok? ==> r.value == AdmissionsIn(log)
  {
    var admissions: seq<Admission> := [];
    for j := 0 to |log|
      invariant AllWellFormed(log[..j]) && admissions == AdmissionsIn(log[..j])
    {
      var record := log[j];
      if record.Entered? {
        if record.participant.None? || record.fencingToken.None? || record.sequence.None? {
          return Err(Omitted);
        }
        admissions := admissions + [Admission(record.participant.value, record.sequence.value, record.fencingToken.value)];
      }
      assert log[..j + 1][..j] == log[..j];
    }
    assert log[..|log|] == log;
    return Ok(admissions);
  }

  /** The admissions of all logs, in log order; the first malformed entry rejects them all. */
  method ReadAdmissions(logs: seq<seq<Record>>) returns (r: Result<seq<Admission>, LeaseError>)
    ensures r.Ok? <==> AllWellFormed(Flatten(logs))
    ensures r.Ok? ==> r.value == AdmissionsIn(Flatten(logs))
  {
    var admissions: seq<Admission> := [];
    for i := 0 to |logs|
      invariant AllWellFormed(Flatten(logs[..i])) && admissions == AdmissionsIn(Flatten(logs[..i]))
    {
      FlattenNext(logs, i + 1);
      var read := ReadLog(logs[i]);
      if read.Err? {
        MalformedLog(logs, i);
        return Err(read.error);
      }
      AdmissionsConcat(Flatten(logs[..i]), logs[i]);
      admissions := admissions + read.value;
    }
    assert logs[..|logs|] == logs;
    return Ok(admissions);
  }

  lemma MalformedLog(logs: seq<seq<Record>>, i: nat)
    requires i < |logs| && !AllWellFormed(logs[i])
    ensures !AllWellFormed(Flatten(logs))
  {
    var j :| 0 <= j < |logs[i]| && !WellFormed(logs[i][j]);
    FlattenMember(logs, logs[i][j]);
  }

  // ---------- what the oracle is for ----------

  function Tokens(admissions: seq<Admission>): (r: seq<int>)
    ensures |r| == |admissions| && forall i :: 0 <= i < |r| ==> r[i] == admissions[i].fencingToken
  {
    seq(|admissions|, i requires 0 <= i < |admissions| => admissions[i].fencingToken)
  }

  function Participants(admissions: seq<Admission>): set<string> {
    set i | 0 <= i < |admissions| :: admissions[i].participant
  }

  /** The sequences one participant entered with, in log order. */
  function SequencesOf(admissions: seq<Admission>, participant: string): seq<int> {
    if admissions == [] then []
    else
      var front, last := SequencesOf(admissions[..|admissions| - 1], participant), admissions[|admissions| - 1];
      if last.participant == participant then front + [last.sequence] else front
  }

  /** Every contender entered once with each of 0, ..., share - 1, and with nothing else. */
  ghost predicate EachHas(admissions: seq<Admission>, share: nat) {
    forall p :: p in Participants(admissions) ==> multiset(SequencesOf(admissions, p)) == multiset(Range(share))
  }

  /**
   * Every one of `participants` contenders entered once with each sequence of an equal share, and
   * no two entries held the same fencing token.
   */
  ghost predicate Admitted(admissions: seq<Admission>, expected: nat, participants: nat) {
    && Distinct(Tokens(admissions))
    && |Participants(admissions)| == participants
    && exists share: nat :: share * participants == expected && EachHas(admissions, share)
  }

  // ---------- the check ----------

  /** `sequences.some((sequence, index) => sequence !== expected[index])`, negated. */
  predicate MatchesPrefix(sequences: seq<int>, expected: seq<int>) {
    |sequences| <= |expected| && forall i :: 0 <= i < |sequences| ==> sequences[i] == expected[i]
  }

  predicate ParticipantAccepted(admissions: seq<Admission>, expected: nat, participants: nat, p: string)
    requires participants > 0
  {
    MatchesPrefix(Sort(SequencesOf(admissions, p)), Range(expected / participants))
  }

  /** What the statements of the check test, one by one. */
  ghost predicate Checked(admissions: seq<Admission>, expected: nat, participants: nat) {
    && |admissions| == expected
    && Distinct(Tokens(admissions))
    && |Participants(admissions)| == participants
    && (participants > 0 ==>
          forall p :: p in Participants(admissions) ==> ParticipantAccepted(admissions, expected, participants, p))
  }

  /** The error says what is wrong with the admissions; only a malformed record is reported as omitted. */
  ghost predicate Blames(e: LeaseError, admissions: seq<Admission>, expected: nat, participants: nat) {
    match e
    case Omitted => false
    case WrongCount(admitted) => admitted == |admissions| != expected
    case ReusedToken =>
      exists i, j :: 0 <= i < j < |admissions| && admissions[i].fencingToken == admissions[j].fencingToken
    case WrongContenders(admitted) => admitted == |Participants(admissions)| != participants
    case Incomplete(p) =>
      && p in Participants(admissions) && participants > 0
      && multiset(SequencesOf(admissions, p)) != multiset(Range(expected / participants))
  }

  method AssertLeaseAdmissions(admissions: seq<Admission>, expected: nat, participants: nat)
    returns (error: Option<LeaseError>)
    ensures error.None? <==> Admitted(admissions, expected, participants)
    ensures error.Some? ==> Blames(error.value, admissions, expected, participants)
  {
    CheckedIff(admissions, expected, participants);
    if |admissions| != expected {
      return Some(WrongCount(|admissions|));
    }
    var tokens := Tokens(admissions);
    SetSize(tokens);
    if |ToSet(tokens)| != |tokens| {
      var i, j :| 0 <= i < j < |tokens| && tokens[i] == tokens[j];
      assert admissions[i].fencingToken == admissions[j].fencingToken;
      return Some(ReusedToken);
    }
    var participantSet := Participants(admissions);
    if |participantSet| != participants {
      return Some(WrongContenders(|participantSet|));
    }
    var rest := participantSet;
    while rest != {}
      invariant rest <= participantSet
      invariant participants > 0 ==>
                  forall p :: p in participantSet - rest ==> ParticipantAccepted(admissions, expected, participants, p)
    {
      var participant :| participant in rest;
      assert participantSet != {};
      if !ParticipantAccepted(admissions, expected, participants, participant) {
        if multiset(SequencesOf(admissions, participant)) == multiset(Range(expected / participants)) {
          RangeIsPrefix(SequencesOf(admissions, participant), expected / participants);
        }
        return Some(Incomplete(participant));
      }
      rest := rest - {participant};
    }
    return None;
  }

  // ---------- why comparing prefixes is enough ----------

  lemma SortedRange(n: nat)
    ensures Sorted(Range(n)) && Increasing(Range(n))
  {
  }

  lemma {:induction false} PrefixIsRange(sequences: seq<int>, n: nat)
    requires MatchesPrefix(Sort(sequences), Range(n))
    ensures |sequences| <= n
    ensures |sequences| == n ==> multiset(sequences) == multiset(Range(n))
  {
    SameElements(Sort(sequences), sequences);
    if |sequences| == n {
      assert Sort(sequences) == Range(n);
    }
  }

  lemma {:induction false} RangeIsPrefix(sequences: seq<int>, n: nat)
    requires multiset(sequences) == multiset(Range(n))
    ensures |sequences| == n && MatchesPrefix(Sort(sequences), Range(n))
  {
    SortedRange(n);
    SortedUnique(Sort(sequences), Range(n));
    SameElements(sequences, Range(n));
  }

  /** How many admissions belong to a set of participants. */
  function CountIn(admissions: seq<Admission>, ps: set<string>): nat {
    if admissions == [] then 0
    else
      CountIn(admissions[..|admissions| - 1], ps) + (if admissions[|admissions| - 1].participant in ps then 1 else 0)
  }

  lemma {:induction false} CountSplit(admissions: seq<Admission>, ps: set<string>, p: string)
    requires p in ps
    ensures CountIn(admissions, ps) == |SequencesOf(admissions, p)| + CountIn(admissions, ps - {p})
  {
    if admissions != [] {
      CountSplit(admissions[..|admissions| - 1], ps, p);
    }
  }

  lemma {:induction false} CountEverybody(admissions: seq<Admission>, ps: set<string>)
    requires Participants(admissions) <= ps
    ensures CountIn(admissions, ps) == |admissions|
  {
    if admissions != [] {
      var front := admissions[..|admissions| - 1];
      assert admissions[|admissions| - 1].participant in Participants(admissions);
      forall p | p in Participants(front) ensures p in Participants(admissions) {
        var i :| 0 <= i < |front| && front[i].participant == p;
        assert admissions[i].participant == p;
      }
      CountEverybody(front, ps);
    }
  }

  lemma {:induction false} CountNobody(admissions: seq<Admission>)
    ensures CountIn(admissions, {}) == 0
  {
    if admissions != [] {
      CountNobody(admissions[..|admissions| - 1]);
    }
  }

  /** If nobody has more than `share`, all have at most that together, and together that only if everybody has it. */
  lemma {:induction false} Pigeonhole(admissions: seq<Admission>, ps: set<string>, share: nat)
    requires forall p :: p in ps ==> |SequencesOf(admissions, p)| <= share
    ensures CountIn(admissions, ps) <= share * |ps|
    ensures CountIn(admissions, ps) == share * |ps| ==> forall p :: p in ps ==> |SequencesOf(admissions, p)| == share
    decreases |ps|
  {
    if ps == {} {
      CountNobody(admissions);
    } else {
      var p :| p in ps;
      var rest := ps - {p};
      CountSplit(admissions, ps, p);
      Pigeonhole(admissions, rest, share);
      assert share * |ps| == share * |rest| + share;
    }
  }

  lemma {:induction false} EqualShares(admissions: seq<Admission>, ps: set<string>, share: nat)
    requires forall p :: p in ps ==> |SequencesOf(admissions, p)| == share
    ensures CountIn(admissions, ps) == share * |ps|
    decreases |ps|
  {
    if ps == {} {
      CountNobody(admissions);
    } else {
      var p :| p in ps;
      CountSplit(admissions, ps, p);
      EqualShares(admissions, ps - {p}, share);
      OneMoreShare(share, |ps - {p}|);
    }
  }

  lemma OneMoreShare(share: nat, n: nat)
    ensures share * (n + 1) == share * n + share
  {
  }

  lemma {:induction false} FloorShare(share: nat, participants: nat)
    requires participants > 0
    ensures (share * participants) / participants == share
  {
    var q := (share * participants) / participants;
    AtLeastOnce(share - q, participants);
    AtLeastOnce(q - share, participants);
    assert (share - q) * participants == share * participants - q * participants;
    assert (q - share) * participants == q * participants - share * participants;
  }

  lemma AtLeastOnce(a: int, b: nat)
    ensures a >= 1 ==> a * b >= b
  {
    if a >= 1 {
      assert a * b == (a - 1) * b + b;
    }
  }

  lemma NobodyAdmitted(admissions: seq<Admission>)
    requires Participants(admissions) == {}
    ensures admissions == [] && EachHas(admissions, 0)
  {
    CountEverybody(admissions, {});
    CountNobody(admissions);
  }

  lemma {:induction false} SharesAreEqual(admissions: seq<Admission>, share: nat)
    requires share * |Participants(admissions)| <= |admissions|
    requires forall p :: p in Participants(admissions) ==> MatchesPrefix(Sort(SequencesOf(admissions, p)), Range(share))
    ensures share * |Participants(admissions)| == |admissions| && EachHas(admissions, share)
  {
    var ps := Participants(admissions);
    forall p | p in ps ensures |SequencesOf(admissions, p)| <= share {
      PrefixIsRange(SequencesOf(admissions, p), share);
    }
    CountEverybody(admissions, ps);
    Pigeonhole(admissions, ps, share);
    forall p | p in ps ensures multiset(SequencesOf(admissions, p)) == multiset(Range(share)) {
      PrefixIsRange(SequencesOf(admissions, p), share);
    }
  }

  lemma CheckedMeansAdmitted(admissions: seq<Admission>, expected: nat, participants: nat)
    requires Checked(admissions, expected, participants)
    ensures Admitted(admissions, expected, participants)
  {
    if participants == 0 {
      NobodyAdmitted(admissions);
      SharedOut(0, participants, expected, admissions);
    } else {
      var share := expected / participants;
      FloorAtMost(expected, participants);
      forall p | p in Participants(admissions)
        ensures MatchesPrefix(Sort(SequencesOf(admissions, p)), Range(share))
      {
        assert ParticipantAccepted(admissions, expected, participants, p);
      }
      SharesAreEqual(admissions, share);
      SharedOut(share, participants, expected, admissions);
    }
  }

  lemma FloorAtMost(expected: nat, participants: nat)
    requires participants > 0
    ensures (expected / participants) * participants <= expected
  {
  }

  lemma SharedOut(share: nat, participants: nat, expected: nat, admissions: seq<Admission>)
    requires share * participants == expected && EachHas(admissions, share)
    ensures exists share: nat :: share * participants == expected && EachHas(admissions, share)
  {
  }

  lemma {:induction false} AdmittedIsChecked(admissions: seq<Admission>, expected: nat, participants: nat)
    requires Admitted(admissions, expected, participants)
    ensures Checked(admissions, expected, participants)
  {
    var ps := Participants(admissions);
    var share: nat :| share * participants == expected && EachHas(admissions, share);
    forall p | p in ps
      ensures |SequencesOf(admissions, p)| == share && MatchesPrefix(Sort(SequencesOf(admissions, p)), Range(share))
    {
      RangeIsPrefix(SequencesOf(admissions, p), share);
    }
    CountEverybody(admissions, ps);
    EqualShares(admissions, ps, share);
    if participants > 0 {
      FloorShare(share, participants);
    }
  }

  lemma CheckedIff(admissions: seq<Admission>, expected: nat, participants: nat)
    ensures Checked(admissions, expected, participants) <==> Admitted(admissions, expected, participants)
  {
    if Checked(admissions, expected, participants) {
      CheckedMeansAdmitted(admissions, expected, participants);
    }
    if Admitted(admissions, expected, participants) {
      AdmittedIsChecked(admissions, expected, participants);
    }
  }

  // ---------- the order of the logs does not matter ----------

  lemma {:induction false} SequencesConcat(a: seq<Admission>, b: seq<Admission>, p: string)
    ensures SequencesOf(a + b, p) == SequencesOf(a, p) + SequencesOf(b, p)
    decreases |b|
  {
    if b == [] {
      assert a + b == a;
    } else {
      assert (a + b)[..|a + b| - 1] == a + b[..|b| - 1];
      SequencesConcat(a, b[..|b| - 1], p);
    }
  }

  lemma {:induction false} SequencesAnyOrder(a: seq<Admission>, b: seq<Admission>, p: string)
    requires multiset(a) == multiset(b)
    ensures multiset(SequencesOf(a, p)) == multiset(SequencesOf(b, p))
    decreases |a|
  {
    SameElements(a, b);
    if a != [] {
      var front, x := a[..|a| - 1], a[|a| - 1];
      var left, right := FindSplit(a, b);
      assert a == front + [x];
      SequencesAnyOrder(front, left + right, p);
      SequencesConcat(front, [x], p);
      SequencesConcat(left, right, p);
      SequencesConcat(left + [x], right, p);
      SequencesConcat(left, [x], p);
    }
  }

  lemma TokensConcat(a: seq<Admission>, b: seq<Admission>)
    ensures Tokens(a + b) == Tokens(a) + Tokens(b)
  {
  }

  lemma {:induction false} TokensAnyOrder(a: seq<Admission>, b: seq<Admission>)
    requires multiset(a) == multiset(b)
    ensures multiset(Tokens(a)) == multiset(Tokens(b))
    decreases |a|
  {
    SameElements(a, b);
    if a != [] {
      var front, x := a[..|a| - 1], a[|a| - 1];
      var left, right := FindSplit(a, b);
      TokensAnyOrder(front, left + right);
      assert a == front + [x];
      TokensConcat(front, [x]);
      TokensConcat(left, right);
      TokensConcat(left + [x], right);
      TokensConcat(left, [x]);
    }
  }

  lemma ParticipantsAnyOrder(a: seq<Admission>, b: seq<Admission>)
    requires multiset(a) == multiset(b)
    ensures Participants(a) <= Participants(b)
  {
    forall p | p in Participants(a) ensures p in Participants(b) {
      var i :| 0 <= i < |a| && a[i].participant == p;
      assert a[i] in multiset(b);
      var j :| 0 <= j < |b| && b[j] == a[i];
    }
  }

  lemma AdmittedRearranged(a: seq<Admission>, b: seq<Admission>, expected: nat, participants: nat)
    requires multiset(a) == multiset(b) && Admitted(a, expected, participants)
    ensures Admitted(b, expected, participants)
  {
    TokensAnyOrder(a, b);
    SameElements(Tokens(a), Tokens(b));
    ParticipantsAnyOrder(a, b);
    ParticipantsAnyOrder(b, a);
    assert Participants(a) == Participants(b);
    var share: nat :| share * participants == expected && EachHas(a, share);
    forall p | p in Participants(b) ensures multiset(SequencesOf(b, p)) == multiset(Range(share)) {
      SequencesAnyOrder(a, b, p);
    }
    assert EachHas(b, share);
    SharedOut(share, participants, expected, b);
  }

  /** Rearranged admissions have the same verdict: it makes no difference in which order the logs list them. */
  lemma AdmittedAnyOrder(a: seq<Admission>, b: seq<Admission>, expected: nat, participants: nat)
    requires multiset(a) == multiset(b)
    ensures Admitted(a, expected, participants) <==> Admitted(b, expected, participants)
  {
    if Admitted(a, expected, participants) {
      AdmittedRearranged(a, b, expected, participants);
    }
    if Admitted(b, expected, participants) {
      AdmittedRearranged(b, a, expected, participants);
    }
  }
}
