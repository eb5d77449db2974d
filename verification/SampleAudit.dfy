/** Benchmark summaries and their independent auditor: they agree, and quantiles are nearest ranks. */
module SampleAudit {
  import opened Bytes

  datatype Status = Success | Error | Timeout

  datatype Sample = Sample(
    requestId: nat, start: nat, end: nat, latency: nat, status: Status, phase: string, measurement: bool,
    integrity: Option<bool>)

  datatype Summary = Summary(
    attempts: nat, successes: nat, failures: int, timeouts: nat, unsuccessful: int, failureRate: Option<real>,
    p50: Option<nat>, p95: Option<nat>, p99: Option<nat>, throughput: Option<real>, elapsed: Option<int>)

  // ----- sorted latencies and quantiles

  function Insert(s: seq<nat>, x: nat): seq<nat> {
    if s != [] && x < s[|s| - 1] then Insert(s[..|s| - 1], x) + [s[|s| - 1]] else s + [x]
  }

  function Sorted(s: seq<nat>): seq<nat> {
    if s == [] then [] else Insert(Sorted(s[..|s| - 1]), s[|s| - 1])
  }

  ghost predicate Ascending(s: seq<nat>) {
    forall i, j :: 0 <= i < j < |s| ==> s[i] <= s[j]
  }

  /** How many elements are at most `q`. */
  ghost function AtMost(s: seq<nat>, q: int): nat {
    if s == [] then 0 else AtMost(s[..|s| - 1], q) + if s[|s| - 1] <= q then 1 else 0
  }

  lemma AtMostStep(s: seq<nat>, x: nat, q: int)
    ensures AtMost(s + [x], q) == AtMost(s, q) + if x <= q then 1 else 0
  {
    assert (s + [x])[..|s|] == s;
  }

  lemma {:induction false} InsertCounts(s: seq<nat>, x: nat, q: int)
    ensures AtMost(Insert(s, x), q) == AtMost(s, q) + if x <= q then 1 else 0
    ensures |Insert(s, x)| == |s| + 1
  {
    if s != [] && x < s[|s| - 1] {
      InsertCounts(s[..|s| - 1], x, q);
      AtMostStep(Insert(s[..|s| - 1], x), s[|s| - 1], q);
    } else {
      AtMostStep(s, x, q);
    }
  }

  /** Sorting keeps how many elements are at most any bound, and so every element. */
  lemma {:induction false} SortedCounts(s: seq<nat>, q: int)
    ensures AtMost(Sorted(s), q) == AtMost(s, q) && |Sorted(s)| == |s|
  {
    if s != [] {
      SortedCounts(s[..|s| - 1], q);
      InsertCounts(Sorted(s[..|s| - 1]), s[|s| - 1], q);
    }
  }

  lemma {:induction false} InsertBounded(s: seq<nat>, x: nat, bound: nat)
    requires x <= bound && forall i :: 0 <= i < |s| ==> s[i] <= bound
    ensures forall i :: 0 <= i < |Insert(s, x)| ==> Insert(s, x)[i] <= bound
  {
    if s != [] && x < s[|s| - 1] { InsertBounded(s[..|s| - 1], x, bound); }
  }

  lemma {:induction false} InsertAscends(s: seq<nat>, x: nat)
    requires Ascending(s)
    ensures Ascending(Insert(s, x))
  {
    if s != [] && x < s[|s| - 1] {
      InsertAscends(s[..|s| - 1], x);
      InsertBounded(s[..|s| - 1], x, s[|s| - 1]);
    }
  }

  lemma {:induction false} SortedAscends(s: seq<nat>)
    ensures Ascending(Sorted(s))
  {
    if s != [] {
      SortedAscends(s[..|s| - 1]);
      InsertAscends(Sorted(s[..|s| - 1]), s[|s| - 1]);
    }
  }

  /** In an ascending sequence at least r elements are at most the r-th, and fewer than r are below it. */
  lemma {:induction false} RankCounts(s: seq<nat>, r: nat, q: int)
    requires Ascending(s) && 0 < r <= |s|
    ensures q >= s[r - 1] ==> AtMost(s, q) >= r
    ensures q < s[r - 1] ==> AtMost(s, q) < r
    decreases |s|
  {
    var before := s[..|s| - 1];
    if r < |s| {
      RankCounts(before, r, q);
    } else if r > 1 {
      AtMostAll(before, q);
      if q >= s[r - 1] { RankCounts(before, r - 1, q); }
    } else {
      assert before == [];
    }
  }

  lemma {:induction false} AtMostAll(s: seq<nat>, q: int)
    ensures AtMost(s, q) <= |s|
  {
    if s != [] { AtMostAll(s[..|s| - 1], q); }
  }

  datatype Quantile = P50 | P95 | P99

  /** ceil(p * n) for the three fractions. */
  function Rank(p: Quantile, n: nat): nat {
    match p
    case P50 => (n + 1) / 2
    case P95 => (19 * n + 19) / 20
    case P99 => (99 * n + 99) / 100
  }

  /** The ranks are the ceilings of n/2, 19n/20 and 99n/100. */
  lemma RankIsCeiling(n: nat)
    requires n > 0
    ensures 0 < Rank(P50, n) <= Rank(P95, n) <= Rank(P99, n) <= n
    ensures 2 * (Rank(P50, n) - 1) < n <= 2 * Rank(P50, n)
    ensures 20 * (Rank(P95, n) - 1) < 19 * n <= 20 * Rank(P95, n)
    ensures 100 * (Rank(P99, n) - 1) < 99 * n <= 100 * Rank(P99, n)
  {}

  function At(s: seq<nat>, r: nat): Option<nat> {
    if 0 < r <= |s| then Some(s[r - 1]) else None
  }

  /** The nearest-rank quantile of the samples. */
  function Nearest(values: seq<nat>, p: Quantile): Option<nat> {
    At(Sorted(values), Rank(p, |values|))
  }

  lemma {:induction false} SortedRank(values: seq<nat>, r: nat)
    requires 0 < r <= |values|
    ensures |Sorted(values)| == |values|
    ensures var q: int := Sorted(values)[r - 1]; AtMost(values, q) >= r && AtMost(values, q - 1) < r
  {
    SortedCounts(values, 0);
    SortedAscends(values);
    var s := Sorted(values);
    var q: int := s[r - 1];
    RankCounts(s, r, q);
    RankCounts(s, r, q - 1);
    SortedCounts(values, q);
    SortedCounts(values, q - 1);
  }

  lemma {:induction false} AtRank(values: seq<nat>, r: nat)
    requires 0 < r <= |values|
    ensures At(Sorted(values), r).Some?
    ensures var q: int := At(Sorted(values), r).value; AtMost(values, q) >= r && AtMost(values, q - 1) < r
  {
    SortedRank(values, r);
  }

  lemma RankInRange(p: Quantile, n: nat)
    requires n > 0
    ensures 0 < Rank(p, n) <= n
  {
    RankIsCeiling(n);
  }

  /** At least ceil(p n) samples are at most the quantile, and fewer than ceil(p n) are below it. */
  lemma {:induction false} QuantileIsNearestRank(values: seq<nat>, p: Quantile, r: nat)
    requires values != [] && r == Rank(p, |values|)
    ensures Nearest(values, p).Some?
    ensures var q: int := Nearest(values, p).value; AtMost(values, q) >= r && AtMost(values, q - 1) < r
  {
    RankInRange(p, |values|);
    AtRank(values, r);
  }

  lemma AtAscends(s: seq<nat>, q: nat, r: nat, t: nat)
    requires Ascending(s) && 0 < q <= r <= t <= |s|
    ensures At(s, q).Some? && At(s, r).Some? && At(s, t).Some?
    ensures At(s, q).value <= At(s, r).value <= At(s, t).value
  {}

  lemma {:induction false} QuantilesAscend(values: seq<nat>)
    requires values != []
    ensures Nearest(values, P50).Some? && Nearest(values, P95).Some? && Nearest(values, P99).Some?
    ensures Nearest(values, P50).value <= Nearest(values, P95).value <= Nearest(values, P99).value
  {
    var n, sorted := |values|, Sorted(values);
    assert |sorted| == n by { SortedCounts(values, 0); }
    SortedAscends(values);
    assert 0 < Rank(P50, n) <= Rank(P95, n) <= Rank(P99, n) <= n by { RankIsCeiling(n); }
    AtAscends(sorted, Rank(P50, n), Rank(P95, n), Rank(P99, n));
  }

  // ----- the summary

  predicate Selected(s: Sample, phase: Option<string>) {
    s.measurement && (phase.Some? ==> s.phase == phase.value)
  }

  function Selection(samples: seq<Sample>, phase: Option<string>): seq<Sample> {
    if samples == [] then [] else
      var last := samples[|samples| - 1];
      Selection(samples[..|samples| - 1], phase) + if Selected(last, phase) then [last] else []
  }

  function Count(samples: seq<Sample>, status: Status): nat {
    if samples == [] then 0 else
      Count(samples[..|samples| - 1], status) + if samples[|samples| - 1].status == status then 1 else 0
  }

  function Latencies(samples: seq<Sample>): seq<nat> {
    if samples == [] then [] else Latencies(samples[..|samples| - 1]) + [samples[|samples| - 1].latency]
  }

  function LastEnd(samples: seq<Sample>): nat
    requires samples != []
  {
    var n := |samples| - 1;
    if n == 0 || LastEnd(samples[..n]) < samples[n].end then samples[n].end else LastEnd(samples[..n])
  }

  function FirstStart(samples: seq<Sample>): nat
    requires samples != []
  {
    var n := |samples| - 1;
    if n == 0 || FirstStart(samples[..n]) > samples[n].start then samples[n].start else FirstStart(samples[..n])
  }

  function Elapsed(samples: seq<Sample>): Option<int> {
    if samples == [] then None else Some(LastEnd(samples) - FirstStart(samples))
  }

  function Ratio(a: int, b: int): real
    requires b != 0
  {
    (a as real) / (b as real)
  }

  /** Successes per second, when any time has passed. */
  function Throughput(successes: int, elapsed: Option<int>): Option<real> {
    if elapsed.None? || elapsed.value == 0 then None else Some(Ratio(successes * 1_000_000_000, elapsed.value))
  }

  /** What the benchmark reports: failures are what is neither a success nor a timeout. */
  function Summarize(samples: seq<Sample>, phase: Option<string>): Summary {
    var selected := Selection(samples, phase);
    var attempts, successes, timeouts := |selected|, Count(selected, Success), Count(selected, Timeout);
    var failures := attempts - successes - timeouts;
    var latencies, elapsed := Latencies(selected), Elapsed(selected);
    Summary(attempts, successes, failures, timeouts, failures + timeouts,
            if attempts == 0 then None else Some(Ratio(failures + timeouts, attempts)),
            Nearest(latencies, P50), Nearest(latencies, P95), Nearest(latencies, P99),
            Throughput(successes, elapsed), elapsed)
  }

  lemma {:induction false} CountsAddUp(samples: seq<Sample>)
    ensures Count(samples, Success) + Count(samples, Error) + Count(samples, Timeout) == |samples|
  {
    if samples != [] { CountsAddUp(samples[..|samples| - 1]); }
  }

  lemma {:induction false} LatenciesCount(samples: seq<Sample>)
    ensures |Latencies(samples)| == |samples|
  {
    if samples != [] { LatenciesCount(samples[..|samples| - 1]); }
  }

  /** The elapsed time is the shortest span that contains every attempt. */
  lemma {:induction false} ElapsedSpansAttempts(samples: seq<Sample>)
    requires samples != []
    ensures forall x :: x in samples ==> FirstStart(samples) <= x.start && x.end <= LastEnd(samples)
    ensures (exists x :: x in samples && x.start == FirstStart(samples)) && exists x :: x in samples && x.end == LastEnd(samples)
  {
    var n := |samples| - 1;
    assert samples == samples[..n] + [samples[n]];
    assert samples[n] in samples;
    if n > 0 {
      ElapsedSpansAttempts(samples[..n]);
      var x :| x in samples[..n] && x.start == FirstStart(samples[..n]);
      var y :| y in samples[..n] && y.end == LastEnd(samples[..n]);
      assert x in samples && y in samples;
    }
  }

  /** A process's log: attempts are appended in the order they end. */
  class SampleLog {
    var samples: seq<Sample>

    constructor ()
      ensures samples == []
    {
      samples := [];
    }

    /** Refuses an attempt that ends before it starts; the latency is the attempt's duration. */
    method Add(requestId: nat, start: nat, end: nat, status: Status, phase: string, measurement: bool, integrity: Option<bool>)
      returns (ok: bool)
      modifies this
      ensures ok <==> start <= end
      ensures samples == old(samples)
                + if start <= end then [Sample(requestId, start, end, end - start, status, phase, measurement, integrity)] else []
      ensures (forall x :: x in old(samples) ==> Timed(x)) ==> forall x :: x in samples ==> Timed(x)
    {
      ok := start <= end;
      if ok { samples := samples + [Sample(requestId, start, end, end - start, status, phase, measurement, integrity)]; }
    }
  }

  // ----- the auditor

  /** A line of the log file; `own` says whether it bears the worker's identity, `provenanceOk` its provenance. */
  datatype Line = RunLine(own: bool, provenanceOk: bool, config: Option<string>) | SampleLine(own: bool, sample: Sample) | OtherLine

  datatype Outcomes = Outcomes(
    attempts: nat, successes: nat, failures: nat, timeouts: nat, latencies: seq<nat>, elapsed: Option<int>)

  /** Complaints that are collected when a list for them is given, and otherwise end the audit. */
  datatype Complaint = Corrupt(requestId: nat) | Unsuccessful | BadMetric(name: string)

  predicate Timed(s: Sample) {
    s.start <= s.end && s.latency == s.end - s.start
  }

  /** What the auditor demands of every sample; a payload that failed its check is tolerated while collecting. */
  predicate Acceptable(s: Sample, collect: bool) {
    && Timed(s)
    && (s.integrity == Some(false) ==> collect)
    && (s.status == Success ==> s.integrity.Some?)
  }

  ghost function Samples(lines: seq<Line>): seq<Sample> {
    if lines == [] then [] else
      var last := lines[|lines| - 1];
      Samples(lines[..|lines| - 1]) + if last.SampleLine? then [last.sample] else []
  }

  ghost function RunLines(lines: seq<Line>): seq<Line> {
    if lines == [] then [] else
      var last := lines[|lines| - 1];
      RunLines(lines[..|lines| - 1]) + if last.RunLine? then [last] else []
  }

  ghost function Requests(lines: seq<Line>): set<nat> {
    if lines == [] then {} else
      var last := lines[|lines| - 1];
      Requests(lines[..|lines| - 1]) + if last.SampleLine? then {last.sample.requestId} else {}
  }

  /** The payloads that failed their check, measured or not. */
  ghost function Corruptions(samples: seq<Sample>): seq<Complaint> {
    if samples == [] then [] else
      var last := samples[|samples| - 1];
      Corruptions(samples[..|samples| - 1]) + if last.integrity == Some(false) then [Corrupt(last.requestId)] else []
  }

  /** Every sample is the worker's own, acceptable, and of a request not seen before it. */
  ghost predicate Sound(lines: seq<Line>, collect: bool) {
    lines == [] ||
    (var before, last := lines[..|lines| - 1], lines[|lines| - 1];
     && Sound(before, collect)
     && !last.OtherLine?
     && (last.SampleLine? ==> last.own && Acceptable(last.sample, collect) && last.sample.requestId !in Requests(before)))
  }

  /** The run line is the worker's, and its configuration is the expected one if any is expected. */
  predicate RunOk(l: Line, expectedConfig: Option<string>) {
    l.RunLine? && l.own && l.provenanceOk && l.config.Some? && (expectedConfig.Some? ==> l.config == expectedConfig)
  }

  ghost predicate OwnRun(lines: seq<Line>, expectedConfig: Option<string>) {
    |RunLines(lines)| == 1 && RunOk(RunLines(lines)[0], expectedConfig)
  }

  lemma {:induction false} SoundPrefix(lines: seq<Line>, collect: bool, n: nat)
    requires Sound(lines, collect) && n <= |lines|
    ensures Sound(lines[..n], collect)
    decreases |lines|
  {
    if n < |lines| {
      SoundPrefix(lines[..|lines| - 1], collect, n);
      assert lines[..|lines| - 1][..n] == lines[..n];
    } else {
      assert lines[..n] == lines;
    }
  }

  /** Without collecting, a sound log has nothing to complain about. */
  lemma {:induction false} StrictIsClean(lines: seq<Line>)
    requires Sound(lines, false)
    ensures Corruptions(Samples(lines)) == []
    decreases |lines|
  {
    if lines != [] {
      var before, last := lines[..|lines| - 1], lines[|lines| - 1];
      StrictIsClean(before);
      if last.SampleLine? { CorruptionsStep(Samples(before), last.sample); } else { assert Samples(before) + [] == Samples(before); }
    }
  }

  lemma CorruptionsStep(samples: seq<Sample>, s: Sample)
    ensures Corruptions(samples + [s])
            == Corruptions(samples) + if s.integrity == Some(false) then [Corrupt(s.requestId)] else []
  {
    assert (samples + [s])[..|samples|] == samples;
  }

  /** What has been read of the log so far; only measured attempts are counted. */
  datatype Tally = Tally(
    seen: set<nat>, metadata: seq<Line>, complaints: seq<Complaint>, measured: seq<Sample>,
    successes: nat, failures: nat, timeouts: nat)

  /** The tally is that of the lines. */
  ghost predicate Matches(t: Tally, lines: seq<Line>) {
    && t.seen == Requests(lines) && t.metadata == RunLines(lines)
    && t.complaints == Corruptions(Samples(lines))
    && t.measured == Selection(Samples(lines), None)
  }

  ghost predicate Counted(t: Tally) {
    && t.successes == Count(t.measured, Success)
    && t.failures == Count(t.measured, Error)
    && t.timeouts == Count(t.measured, Timeout)
  }

  method ReadSample(t: Tally, own: bool, s: Sample, collect: bool) returns (t': Option<Tally>)
    ensures t'.Some? <==> own && s.requestId !in t.seen && Acceptable(s, collect)
    ensures t'.Some? ==> t'.value == WithSample(t, s)
  {
    if !own || s.requestId in t.seen { return None; }
    if !Timed(s) { return None; }
    var next := t.(seen := t.seen + {s.requestId});
    if s.integrity == Some(false) {
      if !collect { return None; }
      next := next.(complaints := next.complaints + [Corrupt(s.requestId)]);
    }
    if s.status == Success && s.integrity.None? { return None; }
    if s.measurement {
      next := next.(measured := next.measured + [s]);
      match s.status
      case Success => next := next.(successes := next.successes + 1);
      case Error => next := next.(failures := next.failures + 1);
      case Timeout => next := next.(timeouts := next.timeouts + 1);
    }
    t' := Some(next);
  }

  function WithSample(t: Tally, s: Sample): Tally {
    var seen := t.(seen := t.seen + {s.requestId},
                   complaints := if s.integrity == Some(false) then t.complaints + [Corrupt(s.requestId)] else t.complaints);
    if !s.measurement then seen else
      seen.(measured := t.measured + [s],
            successes := t.successes + (if s.status == Success then 1 else 0),
            failures := t.failures + (if s.status == Error then 1 else 0),
            timeouts := t.timeouts + (if s.status == Timeout then 1 else 0))
  }

  lemma {:induction false} LinesStep(lines: seq<Line>, line: Line)
    ensures Samples(lines + [line]) == if line.SampleLine? then Samples(lines) + [line.sample] else Samples(lines)
    ensures Requests(lines + [line]) == if line.SampleLine? then Requests(lines) + {line.sample.requestId} else Requests(lines)
    ensures RunLines(lines + [line]) == if line.RunLine? then RunLines(lines) + [line] else RunLines(lines)
  {
    assert (lines + [line])[..|lines|] == lines;
    assert Samples(lines) + [] == Samples(lines) && RunLines(lines) + [] == RunLines(lines);
  }

  lemma {:induction false} SampleMatches(t: Tally, lines: seq<Line>, line: Line)
    requires Matches(t, lines) && line.SampleLine?
    ensures Matches(WithSample(t, line.sample), lines + [line])
  {
    LinesStep(lines, line);
    CorruptionsStep(Samples(lines), line.sample);
    SelectionStep(Samples(lines), line.sample);
    assert t.complaints + [] == t.complaints && t.measured + [] == t.measured;
  }

  lemma {:induction false} SampleCounted(t: Tally, s: Sample)
    requires Counted(t)
    ensures Counted(WithSample(t, s))
  {
    CountStep(t.measured, s, Success);
    CountStep(t.measured, s, Error);
    CountStep(t.measured, s, Timeout);
  }

  lemma {:induction false} SoundStep(lines: seq<Line>, collect: bool, line: Line)
    requires Sound(lines, collect)
    ensures Sound(lines + [line], collect) <==>
            && !line.OtherLine?
            && (line.SampleLine? ==> line.own && Acceptable(line.sample, collect) && line.sample.requestId !in Requests(lines))
  {
    assert (lines + [line])[..|lines|] == lines;
  }

  /** Reads one more line, given the tally of the lines before it. */
  method ReadLine(t: Tally, line: Line, collect: bool, ghost before: seq<Line>) returns (t': Option<Tally>)
    requires Sound(before, collect) && Matches(t, before) && Counted(t)
    ensures t'.Some? <==> Sound(before + [line], collect)
    ensures t'.Some? ==> Matches(t'.value, before + [line]) && Counted(t'.value)
  {
    SoundStep(before, collect, line);
    match line
    case OtherLine => t' := None;
    case RunLine(_, _, _) =>
      LinesStep(before, line);
      t' := Some(t.(metadata := t.metadata + [line]));
    case SampleLine(own, sample) =>
      t' := ReadSample(t, own, sample, collect);
      SampleMatches(t, before, line);
      SampleCounted(t, sample);
  }

  /** Reads the log line by line, and stops at the first line that is not sound. */
  method ReadLines(lines: seq<Line>, collect: bool) returns (t: Option<Tally>)
    ensures t.Some? <==> Sound(lines, collect)
    ensures t.Some? ==> Matches(t.value, lines) && Counted(t.value)
  {
    t := Some(Tally({}, [], [], [], 0, 0, 0));
    for i := 0 to |lines|
      invariant t.Some? && Sound(lines[..i], collect) && Matches(t.value, lines[..i]) && Counted(t.value)
    {
      assert lines[..i + 1] == lines[..i] + [lines[i]];
      if Sound(lines, collect) { SoundPrefix(lines, collect, i + 1); }
      t := ReadLine(t.value, lines[i], collect, lines[..i]);
      if t.None? { return; }
    }
    assert lines[..|lines|] == lines;
  }

  function OutcomesOf(measured: seq<Sample>): Outcomes {
    Outcomes(|measured|, Count(measured, Success), Count(measured, Error), Count(measured, Timeout),
             Sorted(Latencies(measured)), Elapsed(measured))
  }

  /** The outcomes of a sound log with exactly one run line, of the worker's own, and what was complained about. */
  method SampleOutcomes(lines: seq<Line>, expectedConfig: Option<string>, collect: bool)
    returns (o: Option<Outcomes>, complaints: seq<Complaint>)
    ensures o.Some? <==> Sound(lines, collect) && OwnRun(lines, expectedConfig)
    ensures o.Some? ==> complaints == Corruptions(Samples(lines))
    ensures o.Some? ==> o.value == OutcomesOf(Selection(Samples(lines), None))
  {
    complaints := [];
    var t := ReadLines(lines, collect);
    if t.None? || |t.value.metadata| != 1 || !RunOk(t.value.metadata[0], expectedConfig) { return None, complaints; }
    var m := t.value;
    complaints := m.complaints;
    o := Some(Outcomes(|m.measured|, m.successes, m.failures, m.timeouts, Sorted(Latencies(m.measured)), Elapsed(m.measured)));
  }

  /** The worker's record: its summary, and whether its definitions, provenance and files are in order. */
  datatype Worker = Worker(summary: Summary, definitionOk: bool, provenanceOk: bool, commit: string, eventsExist: bool)

  /** What the caller expects; `normal` asks for a row in which every call succeeded. */
  datatype Expected = Expected(normal: bool, commit: Option<string>, attempts: Option<nat>, config: Option<string>)

  predicate RecordOk(w: Worker, e: Expected) {
    w.definitionOk && w.provenanceOk && w.eventsExist && (e.commit.Some? ==> w.commit == e.commit.value)
  }

  function Positive(name: string, ok: bool): seq<Complaint> {
    if ok then [] else [BadMetric(name)]
  }

  /** What is wrong with a summary that should be of a normal row. */
  function NormalComplaints(s: Summary): seq<Complaint> {
    (if s.successes == s.attempts && s.failures == 0 && s.timeouts == 0 && s.unsuccessful == 0 then [] else [Unsuccessful])
    + Positive("p50_ns", s.p50.Some? && s.p50.value > 0)
    + Positive("p99_ns", s.p99.Some? && s.p99.value > 0)
    + Positive("throughput_calls_per_s", s.throughput.Some? && s.throughput.value > 0.0)
  }

  /** Everything there is to complain about. */
  ghost function AllComplaints(lines: seq<Line>, w: Worker, e: Expected): seq<Complaint> {
    Corruptions(Samples(lines)) + if e.normal then NormalComplaints(w.summary) else []
  }

  predicate CountsAgree(s: Summary, o: Outcomes)
    requires o.attempts > 0
  {
    && s.attempts == o.attempts
    && s.successes == o.successes && s.failures == o.failures && s.timeouts == o.timeouts
    && s.unsuccessful == o.failures + o.timeouts
    && s.failureRate == Some(Ratio(o.failures + o.timeouts, o.attempts))
  }

  predicate TimesAgree(s: Summary, o: Outcomes)
    requires o.attempts > 0
  {
    && s.p50 == At(o.latencies, Rank(P50, o.attempts))
    && s.p95 == At(o.latencies, Rank(P95, o.attempts))
    && s.p99 == At(o.latencies, Rank(P99, o.attempts))
    && s.elapsed == o.elapsed && s.throughput == Throughput(o.successes, o.elapsed)
  }

  lemma {:induction false} CountsOfSummary(samples: seq<Sample>)
    requires Selection(samples, None) != []
    ensures CountsAgree(Summarize(samples, None), OutcomesOf(Selection(samples, None)))
  {
    CountsAddUp(Selection(samples, None));
  }

  lemma {:induction false} TimesOfSummary(samples: seq<Sample>)
    requires Selection(samples, None) != []
    ensures TimesAgree(Summarize(samples, None), OutcomesOf(Selection(samples, None)))
  {
    LatenciesCount(Selection(samples, None));
  }

  /** Field by field agreement with the outcomes leaves only the benchmark's own summary. */
  lemma {:induction false} AgreementIsEquality(s: Summary, samples: seq<Sample>)
    requires Selection(samples, None) != []
    ensures CountsAgree(s, OutcomesOf(Selection(samples, None))) && TimesAgree(s, OutcomesOf(Selection(samples, None)))
            <==> s == Summarize(samples, None)
  {
    CountsOfSummary(samples);
    TimesOfSummary(samples);
    OneSummaryAgrees(s, Summarize(samples, None), OutcomesOf(Selection(samples, None)));
  }

  lemma OneSummaryAgrees(s: Summary, t: Summary, o: Outcomes)
    requires o.attempts > 0 && CountsAgree(t, o) && TimesAgree(t, o)
    ensures CountsAgree(s, o) && TimesAgree(s, o) <==> s == t
  {}

  /**
   * The audit accepts exactly when the record and the log are in order, there are measured
   * attempts, as many as expected, the summary is what the benchmark's own computation gives for
   * the log, and nothing is complained about, unless complaints are collected; then they are
   * exactly the corrupt payloads and the defects of a row that should be normal.
   */
  method CheckWorker(w: Worker, lines: seq<Line>, e: Expected, collect: bool) returns (ok: bool, complaints: seq<Complaint>)
    ensures ok <==>
            && RecordOk(w, e) && Sound(lines, collect) && OwnRun(lines, e.config)
            && Selection(Samples(lines), None) != []
            && w.summary == Summarize(Samples(lines), None)
            && (e.attempts.Some? ==> w.summary.attempts == e.attempts.value)
            && (collect || !e.normal || NormalComplaints(w.summary) == [])
    ensures ok ==> complaints == AllComplaints(lines, w, e)
    ensures ok && !collect ==> complaints == [] && Corruptions(Samples(lines)) == []
  {
    complaints := [];
    if !w.definitionOk || !w.provenanceOk { return false, complaints; }
    if e.commit.Some? && w.commit != e.commit.value { return false, complaints; }
    if !w.eventsExist || w.summary.attempts == 0 {
      return false, complaints;
    }
    var outcomes, corrupt := SampleOutcomes(lines, e.config, collect);
    if outcomes.None? { return false, complaints; }
    var o := outcomes.value;
    if w.summary.attempts != o.attempts { return false, complaints; }
    AgreementIsEquality(w.summary, Samples(lines));
    if !CountsAgree(w.summary, o) || !TimesAgree(w.summary, o) { return false, complaints; }
    if e.attempts.Some? && w.summary.attempts != e.attempts.value { return false, complaints; }
    complaints := corrupt;
    if e.normal { complaints := complaints + NormalComplaints(w.summary); }
    assert complaints == AllComplaints(lines, w, e);
    if !collect { StrictIsClean(lines); }
    ok := collect || complaints == [];
  }

  lemma {:induction false} AllOfOneStatus(samples: seq<Sample>, status: Status)
    ensures Count(samples, status) <= |samples|
    ensures Count(samples, status) == |samples| ==> forall x :: x in samples ==> x.status == status
  {
    if samples != [] {
      AllOfOneStatus(samples[..|samples| - 1], status);
      assert samples == samples[..|samples| - 1] + [samples[|samples| - 1]];
    }
  }

  /** A normal row that is accepted without complaint holds only successes, and every check of a payload succeeded. */
  lemma {:induction false} NormalRowsAreClean(w: Worker, lines: seq<Line>, e: Expected)
    requires e.normal && w.summary == Summarize(Samples(lines), None) && AllComplaints(lines, w, e) == []
    ensures forall x :: x in Selection(Samples(lines), None) ==> x.status == Success
    ensures Corruptions(Samples(lines)) == []
    ensures w.summary.p50.Some? && w.summary.p50.value > 0
  {
    AllOfOneStatus(Selection(Samples(lines), None), Success);
    assert |NormalComplaints(w.summary)| == 0;
  }

  lemma SelectionStep(samples: seq<Sample>, s: Sample)
    ensures Selection(samples + [s], None) == if s.measurement then Selection(samples, None) + [s] else Selection(samples, None)
  {
    assert (samples + [s])[..|samples|] == samples;
    assert Selection(samples, None) + [] == Selection(samples, None);
  }

  lemma CountStep(samples: seq<Sample>, s: Sample, status: Status)
    ensures Count(samples + [s], status) == Count(samples, status) + if s.status == status then 1 else 0
  {
    assert (samples + [s])[..|samples|] == samples;
  }
}
