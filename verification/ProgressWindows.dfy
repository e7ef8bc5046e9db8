/** The check that no client was silent for long (`assertProgressWindows` in src/orchestration/pressure.ts). */
module ProgressWindows {
  import opened Wrappers

  /**
   * A parsed log record: a progress report, whose timestamp is None when it is no date and whose
   * `success` holds the domains with a readable count, or any other event.
   */
  datatype LogRecord =
    | Progress(timestamp: Option<int>, success: map<string, nat>)
    | OtherEvent

  /** A container, a domain and a window without success. */
  datatype Gap = Gap(container: nat, domain: string, window: nat)

  datatype ProgressError = Malformed(container: nat) | MissingProgress(gaps: seq<Gap>)

  /** The measured interval, cut into windows; the last window takes what is left over. */
  datatype Interval = Interval(startedAt: int, completedAt: int, windowMs: int) {
    predicate Valid() {
      windowMs > 0
    }

    function Duration(): (d: int)
      ensures d >= 1
    {
      if completedAt - startedAt < 1 then 1 else completedAt - startedAt
    }

    function Windows(): (n: nat)
      requires Valid()
      ensures n >= 1
    {
      if Duration() / windowMs < 1 then 1 else Duration() / windowMs
    }

    predicate Holds(timestamp: int) {
      startedAt <= timestamp <= completedAt
    }

    /** The window of a timestamp inside the interval. */
    function WindowOf(timestamp: int): (index: nat)
      requires Valid() && Holds(timestamp)
      ensures index < Windows()
    {
      var floored := (timestamp - startedAt) / windowMs;
      if Windows() - 1 < floored then Windows() - 1 else floored
    }

    // ---------- what the check demands ----------

    predicate Counts(r: LogRecord) {
      r.Progress? && r.timestamp.Some? && Holds(r.timestamp.value)
    }

    predicate Readable(r: LogRecord, domains: seq<string>) {
      Counts(r) ==> forall i :: 0 <= i < |domains| ==> domains[i] in r.success
    }

    predicate Succeeded(r: LogRecord, domain: string) {
      Counts(r) && domain in r.success && r.success[domain] > 0
    }

    ghost predicate HasSuccess(log: seq<LogRecord>, domain: string, window: nat)
      requires Valid()
    {
      exists i :: 0 <= i < |log| && Succeeded(log[i], domain) && WindowOf(log[i].timestamp.value) == window
    }

    ghost predicate AllReadable(log: seq<LogRecord>, domains: seq<string>) {
      forall i :: 0 <= i < |log| ==> Readable(log[i], domains)
    }

    ghost predicate Covered(log: seq<LogRecord>, domains: seq<string>)
      requires Valid()
    {
      forall d, w :: d in domains && 0 <= w < Windows() ==> HasSuccess(log, d, w)
    }
  }

  /** Successes per window and domain. */
  type Tally = seq<map<string, nat>>

  ghost predicate TallyShape(totals: Tally, interval: Interval, domains: seq<string>)
    requires interval.Valid()
  {
    |totals| == interval.Windows() && forall w, d :: 0 <= w < |totals| && d in domains ==> d in totals[w]
  }

  /** A total is positive exactly where the log reports a success. */
  ghost predicate TallyOf(totals: Tally, interval: Interval, domains: seq<string>, log: seq<LogRecord>)
    requires interval.Valid()
  {
    && TallyShape(totals, interval, domains)
    && forall w, d :: 0 <= w < |totals| && d in domains ==> (totals[w][d] > 0 <==> interval.HasSuccess(log, d, w))
  }

  lemma HasSuccessNext(interval: Interval, log: seq<LogRecord>, r: LogRecord, d: string, w: nat)
    requires interval.Valid()
    ensures interval.HasSuccess(log + [r], d, w) <==>
              interval.HasSuccess(log, d, w)
              || (interval.Succeeded(r, d) && interval.WindowOf(r.timestamp.value) == w)
  {
    var longer := log + [r];
    assert longer[|log|] == r;
    if interval.HasSuccess(log, d, w) {
      var i :| 0 <= i < |log| && interval.Succeeded(log[i], d) && interval.WindowOf(log[i].timestamp.value) == w;
      assert longer[i] == log[i];
    }
  }

  /** Adds one report to the window of its timestamp; None when a domain has no readable count. */
  method AddReport(totals: Tally, index: nat, success: map<string, nat>, interval: Interval, domains: seq<string>)
    returns (r: Option<Tally>)
    requires interval.Valid() && TallyShape(totals, interval, domains) && index < |totals|
    ensures r.Some? <==> forall i :: 0 <= i < |domains| ==> domains[i] in success
    ensures r.Some? ==> TallyShape(r.value, interval, domains)
    ensures r.Some? ==> forall w, d :: 0 <= w < |totals| && d in domains ==>
              (r.value[w][d] > 0 <==> totals[w][d] > 0 || (w == index && success[d] > 0))
  {
    var window := totals[index];
    for i := 0 to |domains|
      invariant forall d :: d in domains ==> d in window
      invariant forall j :: 0 <= j < i ==> domains[j] in success
      invariant forall d :: d in domains ==>
                  (window[d] > 0 <==> totals[index][d] > 0 || (d in domains[..i] && success[d] > 0))
    {
      var domain := domains[i];
      if domain !in success {
        return None;
      }
      assert domains[..i + 1] == domains[..i] + [domain];
      window := window[domain := window[domain] + success[domain]];
    }
    assert domains[..|domains|] == domains;
    return Some(totals[index := window]);
  }

  lemma SuccessesNext(interval: Interval, log: seq<LogRecord>, r: LogRecord)
    requires interval.Valid()
    ensures forall d, w: nat ::
              interval.HasSuccess(log + [r], d, w) <==>
                interval.HasSuccess(log, d, w) || (interval.Succeeded(r, d) && interval.WindowOf(r.timestamp.value) == w)
  {
    forall d, w: nat
      ensures interval.HasSuccess(log + [r], d, w) <==>
                interval.HasSuccess(log, d, w) || (interval.Succeeded(r, d) && interval.WindowOf(r.timestamp.value) == w)
    {
      HasSuccessNext(interval, log, r, d, w);
    }
  }

  /** The totals of one container's log. */
  method TallyLog(log: seq<LogRecord>, interval: Interval, domains: seq<string>) returns (r: Option<Tally>)
    requires interval.Valid()
    ensures r.Some? <==> interval.AllReadable(log, domains)
    ensures r.Some? ==> TallyOf(r.value, interval, domains, log)
  {
    var totals: Tally := seq(interval.Windows(), _ => map d | d in domains :: 0);
    for k := 0 to |log|
      invariant interval.AllReadable(log[..k], domains)
      invariant TallyOf(totals, interval, domains, log[..k])
    {
      var record := log[k];
      assert log[..k + 1] == log[..k] + [record];
      SuccessesNext(interval, log[..k], record);
      if !record.Progress? || record.timestamp.None? || !interval.Holds(record.timestamp.value) {
        continue;
      }
      var index := interval.WindowOf(record.timestamp.value);
      var added := AddReport(totals, index, record.success, interval, domains);
      if added.None? {
        assert !interval.Readable(log[k], domains);
        return None;
      }
      totals := added.value;
    }
    assert log[..|log|] == log;
    return Some(totals);
  }

  /** The gaps of one container, window by window. */
  method FindGaps(container: nat, totals: Tally, interval: Interval, domains: seq<string>) returns (gaps: seq<Gap>)
    requires interval.Valid() && TallyShape(totals, interval, domains)
    ensures forall g :: g in gaps <==>
              g.container == container && g.domain in domains && g.window < |totals| && totals[g.window][g.domain] == 0
  {
    gaps := [];
    for w := 0 to |totals|
      invariant forall g :: g in gaps <==>
                  g.container == container && g.domain in domains && g.window < w && totals[g.window][g.domain] == 0
    {
      for i := 0 to |domains|
        invariant forall g :: g in gaps <==>
                    && g.container == container && g.domain in domains
                    && (g.window < w || (g.window == w && g.domain in domains[..i]))
                    && totals[g.window][g.domain] == 0
      {
        var domain := domains[i];
        assert domain in domains && domains[..i + 1] == domains[..i] + [domain];
        if totals[w][domain] == 0 {
          gaps := gaps + [Gap(container, domain, w)];
        }
      }
      assert domains[..|domains|] == domains;
    }
  }

  /** A window in which a client reports no success for a domain. */
  ghost predicate IsGap(logs: seq<seq<LogRecord>>, domains: seq<string>, interval: Interval, g: Gap)
    requires interval.Valid()
  {
    && g.container < |logs| && g.domain in domains && g.window < interval.Windows()
    && !interval.HasSuccess(logs[g.container], g.domain, g.window)
  }

  method AssertProgressWindows(logs: seq<seq<LogRecord>>, domains: seq<string>, interval: Interval)
    returns (error: Option<ProgressError>)
    requires interval.Valid()
    ensures error.None? <==>
              forall c :: 0 <= c < |logs| ==> interval.AllReadable(logs[c], domains) && interval.Covered(logs[c], domains)
    ensures error.Some? && error.value.Malformed? ==>
              error.value.container < |logs| && !interval.AllReadable(logs[error.value.container], domains)
    ensures error.Some? && error.value.MissingProgress? ==>
              error.value.gaps != [] && forall g :: g in error.value.gaps <==> IsGap(logs, domains, interval, g)
  {
    var missing: seq<Gap> := [];
    for c := 0 to |logs|
      invariant forall j :: 0 <= j < c ==> interval.AllReadable(logs[j], domains)
      invariant forall g :: g in missing <==> g.container < c && IsGap(logs, domains, interval, g)
    {
      var totals := TallyLog(logs[c], interval, domains);
      if totals.None? {
        return Some(Malformed(c));
      }
      var gaps := FindGaps(c, totals.value, interval, domains);
      missing := missing + gaps;
    }
    if missing != [] {
      var g := missing[0];
      assert !interval.Covered(logs[g.container], domains);
      return Some(MissingProgress(missing));
    }
    forall c | 0 <= c < |logs| ensures interval.Covered(logs[c], domains) {
      forall d, w | d in domains && 0 <= w < interval.Windows() ensures interval.HasSuccess(logs[c], d, w) {
        assert Gap(c, d, w) !in missing;
      }
    }
    return None;
  }

  // ---------- how long a client can be silent ----------

  /** A success reported strictly between two moments. */
  /** A log is unreadable exactly when a report inside the interval leaves a domain out. */
  lemma UnreadableIff(interval: Interval, log: seq<LogRecord>, domains: seq<string>)
    ensures !interval.AllReadable(log, domains) <==> exists i, d :: 0 <= i < |log| && LeavesOut(interval, log[i], domains, d)
  {
    if i :| 0 <= i < |log| && !interval.Readable(log[i], domains) {
      var k :| 0 <= k < |domains| && domains[k] !in log[i].success;
      assert LeavesOut(interval, log[i], domains, domains[k]);
    }
  }

  predicate LeavesOut(interval: Interval, r: LogRecord, domains: seq<string>, d: string) {
    && r.Progress? && r.timestamp.Some? && interval.startedAt <= r.timestamp.value <= interval.completedAt
    && d in domains && d !in r.success
  }

  predicate IsSuccess(r: LogRecord, domain: string) {
    r.Progress? && r.timestamp.Some? && domain in r.success && r.success[domain] >= 1
  }

  ghost predicate SuccessBetween(interval: Interval, log: seq<LogRecord>, domain: string, a: int, b: int) {
    exists i :: 0 <= i < |log| && IsSuccess(log[i], domain)
                && interval.startedAt <= log[i].timestamp.value <= interval.completedAt
                && a < log[i].timestamp.value < b
  }

  /** Some window begins after `a`, and all of it lies before `b`. */
  lemma WindowBetween(interval: Interval, a: int, b: int) returns (window: nat)
    requires interval.Valid() && interval.startedAt <= a && b <= interval.completedAt
    requires b - a >= 3 * interval.windowMs
    ensures window < interval.Windows()
    ensures forall t :: interval.Holds(t) && interval.WindowOf(t) == window ==> a < t < b
  {
    var s, w, n := interval.startedAt, interval.windowMs, interval.Windows();
    var k := (a - s) / w;
    window := k + 1;
    assert interval.Duration() == interval.completedAt - s;
    WindowInside(k, n, w, a - s, b - s, interval.completedAt - s);
    forall t | interval.Holds(t) && interval.WindowOf(t) == window ensures a < t < b {
      assert (t - s) / w == window;
    }
  }

  lemma {:induction false} WindowInside(k: int, n: int, w: int, a: int, b: int, end: int)
    requires w > 0 && k >= 0 && k * w <= a < k * w + w
    requires end < (n + 1) * w && b <= end && b - a >= 3 * w
    ensures k + 1 < n - 1
    ensures a < (k + 1) * w && (k + 1) * w + w <= b
  {
    assert (k + 1) * w == k * w + w;
    assert (n + 1) * w == n * w + w;
    assert (k + 2) * w == k * w + 2 * w;
  }

  /**
   * When the check passes, no client is silent in any domain for three window lengths anywhere in the
   * measured interval, its ends included.
   */
  lemma SilenceBounded(interval: Interval, log: seq<LogRecord>, domains: seq<string>, domain: string, a: int, b: int)
    requires interval.Valid() && interval.Covered(log, domains) && domain in domains
    requires interval.startedAt <= a && b <= interval.completedAt && b - a >= 3 * interval.windowMs
    ensures SuccessBetween(interval, log, domain, a, b)
  {
    var window := WindowBetween(interval, a, b);
    assert interval.HasSuccess(log, domain, window);
    var i :| 0 <= i < |log| && interval.Succeeded(log[i], domain) && interval.WindowOf(log[i].timestamp.value) == window;
    assert IsSuccess(log[i], domain) && a < log[i].timestamp.value < b;
  }

  /** The bound is tight: for every window length, a silence one millisecond shorter can pass. */
  lemma SilenceBoundTight(windowMs: int) returns (interval: Interval, log: seq<LogRecord>, a: int, b: int)
    requires windowMs > 0
    ensures interval.windowMs == windowMs && interval.Valid()
    ensures interval.Covered(log, ["queue"]) && interval.AllReadable(log, ["queue"])
    ensures interval.startedAt <= a && b <= interval.completedAt && b - a == 3 * windowMs - 1
    ensures !SuccessBetween(interval, log, "queue", a, b)
  {
    var w := windowMs;
    interval := Interval(0, 4 * w - 1, w);
    a, b := w, 4 * w - 1;
    log := [Report(0), Report(w), Report(b)];
    Quotient(0, w, 0);
    Quotient(w, w, 1);
    Quotient(b, w, 3);
    assert interval.Windows() == 3;
    forall d, k | d in ["queue"] && 0 <= k < 3 ensures interval.HasSuccess(log, d, k) {
      assert interval.Succeeded(log[k], d) && interval.WindowOf(log[k].timestamp.value) == k;
    }
  }

  function Report(timestamp: int): LogRecord {
    Progress(Some(timestamp), map["queue" := 1])
  }

  lemma {:induction false} Quotient(x: int, w: int, q: int)
    requires w > 0 && q * w <= x < q * w + w
    ensures x / w == q
  {
    assert (q + 1) * w == q * w + w && (x / w + 1) * w == (x / w) * w + w;
  }
}
