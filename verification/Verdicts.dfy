/**
  How a control measurement is judged, from its raw samples to the verdict of the run: the metrics and
  verdicts of scripts/qualify_analysis.py and the repetitions and combinations of
  scripts/qualify-devguard.py. Fractions are exact.
*/
module Verdicts {
  import opened Percentile
  import Sampling

  /** A sample of a schedule. An answer is good when it is about a running target, or acknowledges a
      termination that ended its target. A slot while no gateway serves, and a target refused
      admission, are not counted. */
  datatype Sample =
    | Answered(latency: real, good: bool)
    | Error(lost: bool)
    | MissedSlot
    | Uncounted(lost: bool)

  predicate Lost(s: Sample) {
    (s.Error? || s.Uncounted?) && s.lost
  }

  function Latencies(samples: seq<Sample>): seq<real> {
    if samples == [] then []
    else (if samples[0].Answered? && samples[0].good then [samples[0].latency] else []) + Latencies(samples[1..])
  }

  function Unanswered(samples: seq<Sample>): nat {
    if samples == [] then 0
    else
      var s := samples[0];
      (if s.Error? || s.MissedSlot? || (s.Answered? && !s.good) then 1 else 0) + Unanswered(samples[1..])
  }

  function Losses(samples: seq<Sample>): nat {
    if samples == [] then 0
    else (if samples[0].Error? && samples[0].lost then 1 else 0) + Losses(samples[1..])
  }

  datatype Figures = Figures(samples: nat, expected: int, passed: Option<bool>)

  const STATUS_P99 := 500.0
  const TERMINATION_P99 := 1000.0

  function P99(samples: seq<Sample>): Option<Ranked> {
    NearestRank(Latencies(samples), 99, 100, Unanswered(samples))
  }

  function StatusFigures(samples: seq<Sample>, expected: int): Figures {
    Figures(|Latencies(samples)| + Unanswered(samples), expected,
            if P99(samples).None? then None else Some(Leq(P99(samples).value, Value(STATUS_P99)) && Losses(samples) == 0))
  }

  /** A termination: acknowledged, with whether the target is reported terminated and when its process
      group was gone, or one that got no acknowledgement. */
  datatype Termination =
    | Acknowledged(slot: nat, ack: real, terminated: bool, exit: Option<real>)
    | TerminationError(slot: nat, lost: bool)
    | TerminationMissed(slot: nat)
    | NotStarted(slot: nat, lost: bool)

  predicate Effective(t: Termination) {
    t.Acknowledged? && t.terminated && t.exit.Some?
  }

  /** When the journal showed a slot's target released. */
  datatype Release = Release(slot: nat, released: Option<real>, lost: bool)

  function Released(releases: seq<Release>, slot: nat): Option<real> {
    if releases == [] then None
    else
      var last := releases[|releases| - 1];
      if last.slot == slot then last.released else Released(releases[..|releases| - 1], slot)
  }

  function Timing(t: Termination): Sample {
    match t
    case Acknowledged(_, ack, _, _) => Answered(ack, Effective(t))
    case TerminationError(_, lost) => Error(lost)
    case TerminationMissed(_) => MissedSlot
    case NotStarted(_, lost) => Uncounted(lost)
  }

  function Timings(terminations: seq<Termination>): (r: seq<Sample>)
    ensures |r| == |terminations| && forall i | 0 <= i < |r| :: r[i] == Timing(terminations[i])
  {
    seq(|terminations|, i requires 0 <= i < |terminations| => Timing(terminations[i]))
  }

  function TerminationFigures(terminations: seq<Termination>, releases: seq<Release>, expected: int, releaseExpected: bool): Figures {
    var samples := Timings(terminations);
    Figures(|Latencies(samples)| + Unanswered(samples), expected,
            if Losses(samples) > 0
               || (exists i :: 0 <= i < |terminations| && terminations[i].Acknowledged? && !Effective(terminations[i]))
               || (releaseExpected && exists i :: 0 <= i < |terminations| && Unreleased(terminations[i], releases)) then Some(false)
            else if P99(samples).None? then None
            else Some(Leq(P99(samples).value, Value(TERMINATION_P99))))
  }

  predicate Unreleased(t: Termination, releases: seq<Release>) {
    Effective(t) && Released(releases, t.slot).None?
  }

  datatype Echo = Echoed(latency: real) | NotEchoed | EchoError(lost: bool) | EchoMissed
  datatype Refusal = Refused(latency: real) | Admitted | RefusalError(lost: bool)

  function EchoesPassed(io: seq<Echo>): Option<bool> {
    if exists i :: 0 <= i < |io| && (io[i].NotEchoed? || (io[i].EchoError? && io[i].lost)) then Some(false)
    else if io == [] then None else Some(true)
  }

  function RefusalsPassed(refusals: seq<Refusal>): Option<bool> {
    if exists i :: 0 <= i < |refusals| && refusals[i].RefusalError? && refusals[i].lost then Some(false)
    else if forall i | 0 <= i < |refusals| :: !refusals[i].Refused? then None else Some(true)
  }

  datatype Target = Status | Terminations | Io | Refusals
  datatype Verdict = Pass | Fail | Inconclusive

  /** Why a verdict is not a pass; findings are recorded texts. */
  datatype Reason =
    | Finding(id: nat)
    | MissedTarget(target: Target)
    | ConnectionLost
    | TargetNotEnded
    | StillCharged
    | DuplicateLaunches
    | Readmitted
    | NothingMeasured(target: Target)
    | FewSamples(target: Target)
    | Baseline(verdict: Verdict)
    | NotTheRelease
    | NoWarmTarget
    | ServiceChanged
    | RehearsalRun

  datatype Report = Report(verdict: Verdict, reasons: seq<Reason>)

  datatype Journal = Journal(stillCharged: nat, duplicateLaunches: nat, readmitted: nat)

  /** An interval's raw evidence: how long it was and what was expected of it, what made the observation
      invalid, each schedule's samples, how the status targets ended, what the service check, the journal
      and the load found. */
  datatype Interval = Interval(
    load: bool,
    elapsed: nat,
    releaseExpected: bool,
    terminationsExpected: Option<nat>,
    invalid: seq<nat>,
    pipe: seq<Sample>,
    pty: seq<Sample>,
    terminations: seq<Termination>,
    releases: seq<Release>,
    io: seq<Echo>,
    refusals: seq<Refusal>,
    targets: seq<bool>,
    service: seq<nat>,
    journal: Journal,
    loadFailures: seq<nat>,
    loadIssues: seq<nat>)

  datatype Periods = Periods(status: nat, termination: nat)

  predicate Usable(p: Periods) {
    p.status > 0 && p.termination > 0
  }

  function StatusExpected(i: Interval, p: Periods): nat
    requires Usable(p)
  {
    2 * (i.elapsed / p.status)
  }

  function TerminationsExpected(i: Interval, p: Periods): nat
    requires Usable(p)
  {
    if i.terminationsExpected.Some? then i.terminationsExpected.value else Max(1, i.elapsed / p.termination)
  }

  predicate AnyLost(i: Interval) {
    || (exists k :: 0 <= k < |i.pipe| && Lost(i.pipe[k]))
    || (exists k :: 0 <= k < |i.pty| && Lost(i.pty[k]))
    || (exists k :: 0 <= k < |i.terminations| && Lost(Timing(i.terminations[k])))
    || (exists k :: 0 <= k < |i.releases| && i.releases[k].lost)
    || (exists k :: 0 <= k < |i.io| && i.io[k].EchoError? && i.io[k].lost)
    || (exists k :: 0 <= k < |i.refusals| && i.refusals[k].RefusalError? && i.refusals[k].lost)
  }

  /** A list that begins with the reason, under a condition. */
  function When(condition: bool, reason: Reason, rest: seq<Reason>): (r: seq<Reason>)
    ensures r == [] <==> !condition && rest == []
  {
    if condition then [reason] + rest else rest
  }

  /** A list that begins with recorded findings. */
  function Before(findings: seq<nat>, rest: seq<Reason>): (r: seq<Reason>)
    ensures r == [] <==> findings == [] && rest == []
  {
    Findings(findings) + rest
  }

  function Findings(ids: seq<nat>): (r: seq<Reason>)
    ensures |r| == |ids| && forall k | 0 <= k < |r| :: r[k] == Finding(ids[k])
  {
    seq(|ids|, k requires 0 <= k < |ids| => Finding(ids[k]))
  }

  /** The missed targets and the wrong accounting of an interval. */
  function Failures(i: Interval, p: Periods): seq<Reason>
    requires Usable(p)
  {
    When(StatusFigures(i.pipe + i.pty, StatusExpected(i, p)).passed == Some(false), MissedTarget(Status),
    When(TerminationFigures(i.terminations, i.releases, TerminationsExpected(i, p), i.releaseExpected).passed == Some(false),
         MissedTarget(Terminations),
    When(EchoesPassed(i.io) == Some(false), MissedTarget(Io),
    When(RefusalsPassed(i.refusals) == Some(false), MissedTarget(Refusals),
    When(AnyLost(i), ConnectionLost, Accounting(i))))))
  }

  /** What the service check, the targets, the load and the journal show to be wrong. */
  function Accounting(i: Interval): seq<Reason> {
    Before(i.service,
    When(exists k :: 0 <= k < |i.targets| && !i.targets[k], TargetNotEnded,
    Before(if i.load then i.loadFailures else [],
    When(i.journal.stillCharged > 0, StillCharged,
    When(i.journal.duplicateLaunches > 0, DuplicateLaunches,
    When(i.journal.readmitted > 0, Readmitted, []))))))
  }

  /** What was observed too little of, and how the load differed from the declared one. */
  function Shortfalls(i: Interval, p: Periods): seq<Reason>
    requires Usable(p)
  {
    var status := StatusFigures(i.pipe + i.pty, StatusExpected(i, p));
    var termination := TerminationFigures(i.terminations, i.releases, TerminationsExpected(i, p), i.releaseExpected);
    When(status.passed == None, NothingMeasured(Status),
    When(termination.passed == None, NothingMeasured(Terminations),
    When(10 * status.samples < 9 * status.expected, FewSamples(Status),
    When(10 * termination.samples < 8 * termination.expected, FewSamples(Terminations),
    Before(if i.load then i.loadIssues else [], [])))))
  }

  function IntervalVerdict(i: Interval, p: Periods): Report
    requires Usable(p)
  {
    if i.invalid != [] then Report(Inconclusive, Findings(i.invalid))
    else if Failures(i, p) != [] then Report(Fail, Failures(i, p))
    else if Shortfalls(i, p) != [] then Report(Inconclusive, Shortfalls(i, p))
    else Report(Pass, [])
  }

  // What the metrics mean, counted on the samples themselves.

  function Counted(samples: seq<Sample>): nat {
    if samples == [] then 0 else (if samples[0].Uncounted? then 0 else 1) + Counted(samples[1..])
  }

  function Prompt(samples: seq<Sample>, bound: real): nat {
    if samples == [] then 0
    else
      (if samples[0].Answered? && samples[0].good && samples[0].latency <= bound then 1 else 0) + Prompt(samples[1..], bound)
  }

  lemma {:induction false} SamplesAreCounted(samples: seq<Sample>, bound: real)
    ensures |Latencies(samples)| + Unanswered(samples) == Counted(samples)
    ensures Within(Latencies(samples), bound) == Prompt(samples, bound) <= Counted(samples)
  {
    if samples != [] {
      SamplesAreCounted(samples[1..], bound);
      if samples[0].Answered? && samples[0].good {
        assert Latencies(samples)[1..] == Latencies(samples[1..]);
      } else {
        assert Latencies(samples) == Latencies(samples[1..]);
      }
    }
  }

  /** The 99th percentile is within a bound exactly when 99 of 100 counted samples were answered
      within it, missing samples included. */
  lemma P99Within(samples: seq<Sample>, bound: real)
    ensures P99(samples) == None <==> Counted(samples) == 0
    ensures P99(samples) != None ==>
              (Leq(P99(samples).value, Value(bound)) <==> 100 * Prompt(samples, bound) >= 99 * Counted(samples))
  {
    SamplesAreCounted(samples, bound);
    if Counted(samples) > 0 {
      RankedWithin(Latencies(samples), 99, 100, Unanswered(samples), Value(bound));
      NinetyNine(Counted(samples), Prompt(samples, bound));
    }
  }

  lemma NinetyNine(count: nat, prompt: nat)
    requires count > 0
    ensures prompt >= Rank(99, 100, count) <==> 100 * prompt >= 99 * count
  {
    RankWithin(99, 100, count);
  }

  ghost predicate NoneLost(samples: seq<Sample>) {
    forall k | 0 <= k < |samples| :: !Lost(samples[k])
  }

  lemma {:induction false} LossesAreSeen(samples: seq<Sample>)
    ensures Losses(samples) > 0 ==> !NoneLost(samples)
  {
    if samples != [] {
      LossesAreSeen(samples[1..]);
      if Losses(samples[1..]) > 0 {
        var k :| 0 <= k < |samples| - 1 && Lost(samples[1..][k]);
        assert Lost(samples[k + 1]);
      }
    }
  }

  lemma LostInEither(a: seq<Sample>, b: seq<Sample>)
    ensures NoneLost(a + b) <==> NoneLost(a) && NoneLost(b)
  {
    if NoneLost(a + b) {
      forall k | 0 <= k < |a| ensures !Lost(a[k]) { assert (a + b)[k] == a[k]; }
      forall k | 0 <= k < |b| ensures !Lost(b[k]) { assert (a + b)[|a| + k] == b[k]; }
    }
  }

  /** At least 99 of 100 counted samples were answered within the bound, and some were counted. */
  ghost predicate Responsive(samples: seq<Sample>, bound: real) {
    Counted(samples) > 0 && 100 * Prompt(samples, bound) >= 99 * Counted(samples)
  }

  // What an interval's evidence shows, told on the raw rows.

  /** No row of any kind lost the connection. */
  ghost predicate Connected(i: Interval) {
    && (forall k | 0 <= k < |i.pipe| :: i.pipe[k] != Error(true) && i.pipe[k] != Uncounted(true))
    && (forall k | 0 <= k < |i.pty| :: i.pty[k] != Error(true) && i.pty[k] != Uncounted(true))
    && (forall k | 0 <= k < |i.terminations| ::
          !((i.terminations[k].TerminationError? || i.terminations[k].NotStarted?) && i.terminations[k].lost))
    && (forall k | 0 <= k < |i.releases| :: !i.releases[k].lost)
    && (forall k | 0 <= k < |i.io| :: i.io[k] != EchoError(true))
    && forall k | 0 <= k < |i.refusals| :: i.refusals[k] != RefusalError(true)
  }

  /** The terminations that count: all but those of targets that were not started. */
  function CountedTerminations(ts: seq<Termination>): nat {
    if ts == [] then 0 else (if ts[0].NotStarted? then 0 else 1) + CountedTerminations(ts[1..])
  }

  /** Those acknowledged in time that ended their target and its process group. */
  function PromptTerminations(ts: seq<Termination>, bound: real): nat {
    if ts == [] then 0
    else
      (if ts[0].Acknowledged? && ts[0].terminated && ts[0].exit.Some? && ts[0].ack <= bound then 1 else 0)
      + PromptTerminations(ts[1..], bound)
  }

  ghost predicate TerminationsResponsive(i: Interval, bound: real) {
    && CountedTerminations(i.terminations) > 0
    && 100 * PromptTerminations(i.terminations, bound) >= 99 * CountedTerminations(i.terminations)
  }

  /** The last row of a slot shows its release. */
  ghost predicate WasReleased(releases: seq<Release>, slot: nat) {
    exists j :: 0 <= j < |releases| && releases[j].slot == slot && releases[j].released.Some?
                && forall k | j < k < |releases| :: releases[k].slot != slot
  }

  /** A termination that was acknowledged without being effective, or without an expected release. */
  ghost predicate Misfired(i: Interval, t: Termination) {
    t.Acknowledged? && (!t.terminated || t.exit.None? || (i.releaseExpected && !WasReleased(i.releases, t.slot)))
  }

  /** What a passing interval has observed. */
  ghost predicate Sound(i: Interval, p: Periods)
    requires Usable(p)
  {
    && i.invalid == [] && i.service == []
    && Responsive(i.pipe + i.pty, 500.0) && TerminationsResponsive(i, 1000.0) && Enough(i, p)
    && (forall k | 0 <= k < |i.terminations| :: !Misfired(i, i.terminations[k]))
    && (forall k | 0 <= k < |i.io| :: !i.io[k].NotEchoed?)
    && (forall k | 0 <= k < |i.targets| :: i.targets[k])
    && Connected(i)
    && i.journal == Journal(0, 0, 0)
    && (i.load ==> i.loadFailures == [] && i.loadIssues == [])
  }

  lemma ConnectedIff(i: Interval)
    ensures Connected(i) <==> !AnyLost(i)
  {
  }

  lemma {:induction false} TimingsCount(ts: seq<Termination>, bound: real)
    ensures Counted(Timings(ts)) == CountedTerminations(ts) && Prompt(Timings(ts), bound) == PromptTerminations(ts, bound)
  {
    if ts != [] {
      TimingsCount(ts[1..], bound);
      assert Timings(ts)[1..] == Timings(ts[1..]);
    }
  }

  lemma {:induction false} ReleasedIff(releases: seq<Release>, slot: nat)
    ensures Released(releases, slot).Some? <==> WasReleased(releases, slot)
  {
    if releases != [] {
      var n := |releases| - 1;
      ReleasedIff(releases[..n], slot);
      if releases[n].slot != slot {
        if j :| 0 <= j < n && releases[..n][j].slot == slot && releases[..n][j].released.Some?
                && forall k | j < k < n :: releases[..n][k].slot != slot {
          assert releases[j].slot == slot;
          assert forall k | j < k < n :: releases[k] == releases[..n][k];
        }
        if j :| 0 <= j < |releases| && releases[j].slot == slot && releases[j].released.Some?
                && forall k | j < k < |releases| :: releases[k].slot != slot {
          assert releases[..n][j].slot == slot;
        }
      }
    }
  }

  lemma MisfiredIff(i: Interval, t: Termination)
    ensures Misfired(i, t) <==> t.Acknowledged? && (!Effective(t) || (i.releaseExpected && Released(i.releases, t.slot).None?))
  {
    if t.Acknowledged? {
      ReleasedIff(i.releases, t.slot);
    }
  }

  lemma StatusPassesIff(i: Interval, p: Periods)
    requires Usable(p) && !AnyLost(i)
    ensures var status := StatusFigures(i.pipe + i.pty, StatusExpected(i, p));
            && status.samples == Counted(i.pipe + i.pty)
            && (status.passed == Some(true) <==> Responsive(i.pipe + i.pty, STATUS_P99))
            && (status.passed == None <==> Counted(i.pipe + i.pty) == 0)
  {
    var samples := i.pipe + i.pty;
    SamplesAreCounted(samples, STATUS_P99);
    P99Within(samples, STATUS_P99);
    assert NoneLost(i.pipe) && NoneLost(i.pty);
    LostInEither(i.pipe, i.pty);
    LossesAreSeen(samples);
  }

  lemma TerminationsPassIff(i: Interval, p: Periods)
    requires Usable(p) && !AnyLost(i)
    ensures var figures := TerminationFigures(i.terminations, i.releases, TerminationsExpected(i, p), i.releaseExpected);
            var misfired := exists k :: 0 <= k < |i.terminations| && Misfired(i, i.terminations[k]);
            && figures.samples == CountedTerminations(i.terminations)
            && (figures.passed == Some(true) <==> TerminationsResponsive(i, 1000.0) && !misfired)
            && (figures.passed == Some(false) <==>
                misfired || (CountedTerminations(i.terminations) > 0 && !TerminationsResponsive(i, 1000.0)))
            && (figures.passed == None ==> CountedTerminations(i.terminations) == 0)
  {
    var samples := Timings(i.terminations);
    SamplesAreCounted(samples, TERMINATION_P99);
    P99Within(samples, TERMINATION_P99);
    TimingsCount(i.terminations, TERMINATION_P99);
    assert NoneLost(samples);
    LossesAreSeen(samples);
    forall t ensures Misfired(i, t) <==> (t.Acknowledged? && !Effective(t)) || (i.releaseExpected && Unreleased(t, i.releases)) {
      MisfiredIff(i, t);
    }
  }

  lemma NoFailuresIff(i: Interval, p: Periods)
    requires Usable(p)
    ensures Failures(i, p) == [] <==>
              && StatusFigures(i.pipe + i.pty, StatusExpected(i, p)).passed != Some(false)
              && TerminationFigures(i.terminations, i.releases, TerminationsExpected(i, p), i.releaseExpected).passed != Some(false)
              && EchoesPassed(i.io) != Some(false) && RefusalsPassed(i.refusals) != Some(false)
              && !AnyLost(i) && i.service == []
              && (forall k | 0 <= k < |i.targets| :: i.targets[k])
              && (i.load ==> i.loadFailures == [])
              && i.journal == Journal(0, 0, 0)
  {
  }

  lemma NoShortfallsIff(i: Interval, p: Periods)
    requires Usable(p)
    ensures var status := StatusFigures(i.pipe + i.pty, StatusExpected(i, p));
            var termination := TerminationFigures(i.terminations, i.releases, TerminationsExpected(i, p), i.releaseExpected);
            Shortfalls(i, p) == [] <==>
              && status.passed != None && termination.passed != None
              && 10 * status.samples >= 9 * StatusExpected(i, p)
              && 10 * termination.samples >= 8 * TerminationsExpected(i, p)
              && (i.load ==> i.loadIssues == [])
  {
  }

  lemma EchoesIff(i: Interval)
    requires !AnyLost(i)
    ensures EchoesPassed(i.io) != Some(false) <==> forall k | 0 <= k < |i.io| :: !i.io[k].NotEchoed?
    ensures RefusalsPassed(i.refusals) != Some(false)
  {
  }

  /** Echoes and refusals pass unless one is missing or lost, and nothing is said of none: of no echo at
      all, and where nothing was refused. */
  lemma EchoesAndRefusals(io: seq<Echo>, refusals: seq<Refusal>)
    ensures EchoesPassed(io) == Some(false) <==> exists k :: 0 <= k < |io| && (io[k].NotEchoed? || io[k] == EchoError(true))
    ensures EchoesPassed(io) == None <==> io == []
    ensures RefusalsPassed(refusals) == Some(false) <==> RefusalError(true) in refusals
    ensures RefusalsPassed(refusals) == Some(true) <==>
              RefusalError(true) !in refusals && exists k :: 0 <= k < |refusals| && refusals[k].Refused?
  {
  }

  /** An interval passes if and only if its evidence is sound. */
  lemma IntervalPassesIff(i: Interval, p: Periods)
    requires Usable(p)
    ensures IntervalVerdict(i, p).verdict == Pass <==> Sound(i, p)
  {
    NoFailuresIff(i, p);
    NoShortfallsIff(i, p);
    ConnectedIff(i);
    if !AnyLost(i) {
      StatusPassesIff(i, p);
      TerminationsPassIff(i, p);
      EchoesIff(i);
      EnoughIff(i, p);
    }
  }

  /** The observation is long enough: most of the expected samples are there. */
  ghost predicate Enough(i: Interval, p: Periods)
    requires Usable(p)
  {
    var terminations := CountedTerminations(i.terminations);
    && 10 * Counted(i.pipe + i.pty) >= 9 * (2 * (i.elapsed / p.status))
    && match i.terminationsExpected
       case Some(expected) => 10 * terminations >= 8 * expected
       case None => 10 * terminations >= 8 * (i.elapsed / p.termination) && terminations >= 1
  }

  lemma EnoughIff(i: Interval, p: Periods)
    requires Usable(p)
    ensures Enough(i, p) <==>
              && 10 * Counted(i.pipe + i.pty) >= 9 * StatusExpected(i, p)
              && 10 * CountedTerminations(i.terminations) >= 8 * TerminationsExpected(i, p)
  {
  }

  /** What a failing interval has observed: a target that was measured and missed, or wrong accounting. */
  ghost predicate Failing(i: Interval) {
    var status := i.pipe + i.pty;
    && i.invalid == []
    && (|| !Connected(i) || i.service != [] || i.journal != Journal(0, 0, 0)
        || (exists k :: 0 <= k < |i.targets| && !i.targets[k])
        || (i.load && i.loadFailures != [])
        || (exists k :: 0 <= k < |i.io| && i.io[k].NotEchoed?)
        || (Counted(status) > 0 && !Responsive(status, 500.0))
        || (exists k :: 0 <= k < |i.terminations| && Misfired(i, i.terminations[k]))
        || (CountedTerminations(i.terminations) > 0 && !TerminationsResponsive(i, 1000.0)))
  }

  /** An interval fails if and only if its observation is valid and shows a failure. */
  lemma IntervalFailsIff(i: Interval, p: Periods)
    requires Usable(p)
    ensures IntervalVerdict(i, p).verdict == Fail <==> Failing(i)
  {
    NoFailuresIff(i, p);
    ConnectedIff(i);
    if !AnyLost(i) {
      StatusPassesIff(i, p);
      TerminationsPassIff(i, p);
      EchoesIff(i);
    }
  }

  /** Why a failing interval fails, told on the raw rows; once the connection was lost no more is said of
      the targets than that something was missed. */
  ghost predicate Explains(i: Interval, reason: Reason) {
    var status := i.pipe + i.pty;
    match reason
    case Finding(id) => id in i.service || (i.load && id in i.loadFailures)
    case ConnectionLost => !Connected(i)
    case TargetNotEnded => exists k :: 0 <= k < |i.targets| && !i.targets[k]
    case StillCharged => i.journal.stillCharged > 0
    case DuplicateLaunches => i.journal.duplicateLaunches > 0
    case Readmitted => i.journal.readmitted > 0
    case MissedTarget(target) =>
      (match target
       case Status => Connected(i) ==> Counted(status) > 0 && !Responsive(status, 500.0)
       case Terminations =>
         Connected(i) ==>
           || (exists k :: 0 <= k < |i.terminations| && Misfired(i, i.terminations[k]))
           || (CountedTerminations(i.terminations) > 0 && !TerminationsResponsive(i, 1000.0))
       case Io => exists k :: 0 <= k < |i.io| && (i.io[k].NotEchoed? || i.io[k] == EchoError(true))
       case Refusals => exists k :: 0 <= k < |i.refusals| && i.refusals[k] == RefusalError(true))
    case _ => false
  }

  /** What a failing verdict says was observed and, with the connection kept, all that was observed is said. */
  lemma FailureReasons(i: Interval, p: Periods, reason: Reason)
    requires Usable(p) && IntervalVerdict(i, p).verdict == Fail
    ensures reason in IntervalVerdict(i, p).reasons ==> Explains(i, reason)
    ensures Explains(i, reason) && (Connected(i) || reason !in {MissedTarget(Status), MissedTarget(Terminations)}) ==>
              reason in IntervalVerdict(i, p).reasons
  {
    ConnectedIff(i);
    FailureListed(i, p, reason);
    AccountingListed(i, reason);
    if reason.MissedTarget? {
      MissedTargets(i, p, reason.target);
    }
  }

  ghost predicate Missed(i: Interval, p: Periods, target: Target)
    requires Usable(p)
  {
    match target
    case Status => StatusFigures(i.pipe + i.pty, StatusExpected(i, p)).passed == Some(false)
    case Terminations =>
      TerminationFigures(i.terminations, i.releases, TerminationsExpected(i, p), i.releaseExpected).passed == Some(false)
    case Io => EchoesPassed(i.io) == Some(false)
    case Refusals => RefusalsPassed(i.refusals) == Some(false)
  }

  lemma MissedTargets(i: Interval, p: Periods, target: Target)
    requires Usable(p)
    ensures Missed(i, p, target) ==> Explains(i, MissedTarget(target))
    ensures Explains(i, MissedTarget(target)) && (Connected(i) || target == Io || target == Refusals) ==> Missed(i, p, target)
  {
    ConnectedIff(i);
    match target
    case Status =>
      if Connected(i) {
        StatusPassesIff(i, p);
      }
    case Terminations =>
      if Connected(i) {
        TerminationsPassIff(i, p);
      }
    case _ => EchoesAndRefusals(i.io, i.refusals);
  }

  lemma Listed(condition: bool, reason: Reason, rest: seq<Reason>, r: Reason)
    ensures r in When(condition, reason, rest) <==> (condition && r == reason) || r in rest
  {
  }

  lemma ListedBefore(findings: seq<nat>, rest: seq<Reason>, r: Reason)
    ensures r in Before(findings, rest) <==> (r.Finding? && r.id in findings) || r in rest
  {
  }

  lemma FailureListed(i: Interval, p: Periods, reason: Reason)
    requires Usable(p)
    ensures reason in Failures(i, p) <==>
              || (reason == MissedTarget(Status) && StatusFigures(i.pipe + i.pty, StatusExpected(i, p)).passed == Some(false))
              || (reason == MissedTarget(Terminations)
                  && TerminationFigures(i.terminations, i.releases, TerminationsExpected(i, p), i.releaseExpected).passed == Some(false))
              || (reason == MissedTarget(Io) && EchoesPassed(i.io) == Some(false))
              || (reason == MissedTarget(Refusals) && RefusalsPassed(i.refusals) == Some(false))
              || (reason == ConnectionLost && AnyLost(i))
              || reason in Accounting(i)
  {
  }

  lemma AccountingListed(i: Interval, reason: Reason)
    ensures reason in Accounting(i) <==>
              match reason
              case Finding(id) => id in i.service || (i.load && id in i.loadFailures)
              case TargetNotEnded => exists k :: 0 <= k < |i.targets| && !i.targets[k]
              case StillCharged => i.journal.stillCharged > 0
              case DuplicateLaunches => i.journal.duplicateLaunches > 0
              case Readmitted => i.journal.readmitted > 0
              case _ => false
  {
    var journal := i.journal;
    var again := When(journal.readmitted > 0, Readmitted, []);
    var twice := When(journal.duplicateLaunches > 0, DuplicateLaunches, again);
    var charged := When(journal.stillCharged > 0, StillCharged, twice);
    var load := Before(if i.load then i.loadFailures else [], charged);
    Listed(journal.readmitted > 0, Readmitted, [], reason);
    Listed(journal.duplicateLaunches > 0, DuplicateLaunches, again, reason);
    Listed(journal.stillCharged > 0, StillCharged, twice, reason);
    ListedBefore(if i.load then i.loadFailures else [], charged, reason);
    Listed(exists k :: 0 <= k < |i.targets| && !i.targets[k], TargetNotEnded, load, reason);
    ListedBefore(i.service, When(exists k :: 0 <= k < |i.targets| && !i.targets[k], TargetNotEnded, load), reason);
  }

  /** Why an interval with a valid observation is inconclusive: nothing or too little was measured, or the
      load was not the declared one. */
  ghost predicate Undecides(i: Interval, p: Periods, reason: Reason)
    requires Usable(p)
  {
    var status, terminations := Counted(i.pipe + i.pty), CountedTerminations(i.terminations);
    match reason
    case NothingMeasured(target) => (target == Status && status == 0) || (target == Terminations && terminations == 0)
    case FewSamples(target) =>
      || (target == Status && 10 * status < 9 * (2 * (i.elapsed / p.status)))
      || (target == Terminations && 10 * terminations < 8 * TerminationsExpected(i, p))
    case Finding(id) => i.load && id in i.loadIssues
    case _ => false
  }

  lemma ShortfallReasons(i: Interval, p: Periods, reason: Reason)
    requires Usable(p) && IntervalVerdict(i, p).verdict == Inconclusive && i.invalid == []
    ensures reason in IntervalVerdict(i, p).reasons <==> Undecides(i, p, reason)
  {
    NoFailuresIff(i, p);
    StatusPassesIff(i, p);
    TerminationsPassIff(i, p);
    ShortfallListed(i, p, reason);
  }

  lemma ShortfallListed(i: Interval, p: Periods, reason: Reason)
    requires Usable(p)
    ensures var status := StatusFigures(i.pipe + i.pty, StatusExpected(i, p));
            var termination := TerminationFigures(i.terminations, i.releases, TerminationsExpected(i, p), i.releaseExpected);
            reason in Shortfalls(i, p) <==>
              || (reason == NothingMeasured(Status) && status.passed == None)
              || (reason == NothingMeasured(Terminations) && termination.passed == None)
              || (reason == FewSamples(Status) && 10 * status.samples < 9 * status.expected)
              || (reason == FewSamples(Terminations) && 10 * termination.samples < 8 * termination.expected)
              || (reason.Finding? && i.load && reason.id in i.loadIssues)
  {
    var status := StatusFigures(i.pipe + i.pty, StatusExpected(i, p));
    var termination := TerminationFigures(i.terminations, i.releases, TerminationsExpected(i, p), i.releaseExpected);
    var few, fewer := 10 * termination.samples < 8 * termination.expected, 10 * status.samples < 9 * status.expected;
    var issues := Before(if i.load then i.loadIssues else [], []);
    var third := When(few, FewSamples(Terminations), issues);
    var second := When(fewer, FewSamples(Status), third);
    var first := When(termination.passed == None, NothingMeasured(Terminations), second);
    ListedBefore(if i.load then i.loadIssues else [], [], reason);
    Listed(few, FewSamples(Terminations), issues, reason);
    Listed(fewer, FewSamples(Status), third, reason);
    Listed(termination.passed == None, NothingMeasured(Terminations), second, reason);
    Listed(status.passed == None, NothingMeasured(Status), first, reason);
  }

  lemma FindingsAmong(ids: seq<nat>)
    ensures forall id :: Finding(id) in Findings(ids) <==> id in ids
    ensures forall r | r in Findings(ids) :: r.Finding?
  {
  }

  /** An interval's reasons are about the interval. */
  ghost predicate OfAnInterval(reason: Reason) {
    !reason.Baseline? && reason !in {NotTheRelease, NoWarmTarget, ServiceChanged, RehearsalRun}
  }

  lemma IntervalsSpeakOfThemselves(i: Interval, p: Periods)
    requires Usable(p)
    ensures forall reason | reason in IntervalVerdict(i, p).reasons :: OfAnInterval(reason)
  {
    FindingsAmong(i.invalid);
    forall reason | reason in IntervalVerdict(i, p).reasons ensures OfAnInterval(reason) {
      FailureListed(i, p, reason);
      AccountingListed(i, reason);
      ShortfallListed(i, p, reason);
    }
  }

  /** A verdict that is no pass says why, and a pass has nothing to say. */
  lemma ReasonsAreGiven(i: Interval, p: Periods)
    requires Usable(p)
    ensures IntervalVerdict(i, p).verdict == Pass <==> IntervalVerdict(i, p).reasons == []
    ensures i.invalid != [] ==> IntervalVerdict(i, p) == Report(Inconclusive, Findings(i.invalid))
  {
  }

  lemma {:induction false} CountsOfParts(a: seq<Sample>, b: seq<Sample>, bound: real)
    ensures Counted(a + b) == Counted(a) + Counted(b) && Prompt(a + b, bound) == Prompt(a, bound) + Prompt(b, bound)
  {
    if a == [] {
      assert a + b == b;
    } else {
      CountsOfParts(a[1..], b, bound);
      assert (a + b)[1..] == a[1..] + b;
    }
  }

  /** A sample that counts as missing. */
  predicate Unusable(s: Sample) {
    s.Error? || s.MissedSlot? || (s.Answered? && !s.good)
  }

  lemma CountsOfReplaced(samples: seq<Sample>, k: nat, worse: Sample, bound: real)
    requires k < |samples| && samples[k].Answered? && samples[k].good && Unusable(worse)
    ensures Counted(samples[k := worse]) == Counted(samples)
    ensures Prompt(samples[k := worse], bound) <= Prompt(samples, bound)
  {
    var before, after := samples[..k], samples[k + 1..];
    assert samples == before + ([samples[k]] + after) && samples[k := worse] == before + ([worse] + after);
    CountsOfParts(before, [samples[k]] + after, bound);
    CountsOfParts(before, [worse] + after, bound);
    CountsOfParts([samples[k]], after, bound);
    CountsOfParts([worse], after, bound);
  }

  lemma {:induction false} LossesOfParts(a: seq<Sample>, b: seq<Sample>)
    ensures Losses(a + b) == Losses(a) + Losses(b)
  {
    if a == [] {
      assert a + b == b;
    } else {
      LossesOfParts(a[1..], b);
      assert (a + b)[1..] == a[1..] + b;
    }
  }

  lemma LossesOfReplaced(samples: seq<Sample>, k: nat, worse: Sample)
    requires k < |samples| && samples[k].Answered?
    ensures Losses(samples) <= Losses(samples[k := worse])
  {
    var before, after := samples[..k], samples[k + 1..];
    assert samples == before + ([samples[k]] + after) && samples[k := worse] == before + ([worse] + after);
    LossesOfParts(before, [samples[k]] + after);
    LossesOfParts(before, [worse] + after);
    LossesOfParts([samples[k]], after);
    LossesOfParts([worse], after);
  }

  /** A status metric that passes with an answer missing passes with it, whichever answer it is. */
  lemma LosingASampleNeverPasses(samples: seq<Sample>, expected: int, k: nat, worse: Sample)
    requires k < |samples| && samples[k].Answered? && samples[k].good && Unusable(worse)
    requires StatusFigures(samples[k := worse], expected).passed == Some(true)
    ensures StatusFigures(samples, expected).passed == Some(true)
  {
    P99Within(samples[k := worse], STATUS_P99);
    P99Within(samples, STATUS_P99);
    CountsOfReplaced(samples, k, worse, STATUS_P99);
    LossesOfReplaced(samples, k, worse);
  }

  /** The interval with one status sample, of either target, replaced. */
  function Replaced(i: Interval, k: nat, worse: Sample): Interval
    requires k < |i.pipe| + |i.pty|
  {
    if k < |i.pipe| then i.(pipe := i.pipe[k := worse]) else i.(pty := i.pty[k - |i.pipe| := worse])
  }

  /** Losing an answer never helps: an interval that passes with a status answer missing, of either
      target, passes with it. */
  lemma LosingAnAnswerNeverHelps(i: Interval, p: Periods, k: nat, worse: Sample)
    requires Usable(p) && k < |i.pipe| + |i.pty| && Unusable(worse)
    requires (i.pipe + i.pty)[k].Answered? && (i.pipe + i.pty)[k].good
    requires IntervalVerdict(Replaced(i, k, worse), p).verdict == Pass
    ensures IntervalVerdict(i, p).verdict == Pass
  {
    IntervalPassesIff(Replaced(i, k, worse), p);
    SoundWithTheAnswer(i, p, k, worse);
    IntervalPassesIff(i, p);
  }

  lemma SoundWithTheAnswer(i: Interval, p: Periods, k: nat, worse: Sample)
    requires Usable(p) && k < |i.pipe| + |i.pty| && Unusable(worse)
    requires (i.pipe + i.pty)[k].Answered? && (i.pipe + i.pty)[k].good
    requires Sound(Replaced(i, k, worse), p)
    ensures Sound(i, p)
  {
    var j := Replaced(i, k, worse);
    assert j.pipe + j.pty == (i.pipe + i.pty)[k := worse];
    CountsOfReplaced(i.pipe + i.pty, k, worse, STATUS_P99);
    ConnectedIff(i);
    ConnectedIff(j);
    FewerLost(i, k, worse);
  }

  lemma FewerLost(i: Interval, k: nat, worse: Sample)
    requires k < |i.pipe| + |i.pty| && (i.pipe + i.pty)[k].Answered? && !AnyLost(Replaced(i, k, worse))
    ensures !AnyLost(i)
  {
    var j := Replaced(i, k, worse);
    forall n | 0 <= n < |i.pipe| ensures !Lost(i.pipe[n]) {
      assert n == k || !Lost(j.pipe[n]);
    }
    forall n | 0 <= n < |i.pty| ensures !Lost(i.pty[n]) {
      assert n == k - |i.pipe| || !Lost(j.pty[n]);
    }
  }

  /** The samples of a schedule's rows: a missed slot is one, and an action's is counted. */
  ghost predicate SampledBy(samples: seq<Sample>, rows: seq<Sampling.Row>) {
    && |samples| == |rows|
    && forall k | 0 <= k < |rows| :: !samples[k].Uncounted? && (rows[k].Missed? ==> samples[k].MissedSlot?)
  }

  lemma {:induction false} AllCounted(samples: seq<Sample>)
    requires forall k | 0 <= k < |samples| :: !samples[k].Uncounted?
    ensures Counted(samples) == |samples|
  {
    if samples != [] {
      AllCounted(samples[1..]);
    }
  }

  lemma QuotaOf(samples: seq<Sample>, begin: int, period: nat, elapsed: nat, course: Sampling.Course)
    requires period > 0 && (forall k :: course.late(k) == 0) && course.started <= begin <= begin + elapsed <= course.stop
    requires SampledBy(samples, Sampling.Rows(Sampling.Every(begin, period), course))
    ensures Counted(samples) >= elapsed / period
  {
    Sampling.PeriodRows(Sampling.Every(begin, period), course);
    QuotientsAscend(elapsed, course.stop - begin, period);
    AllCounted(samples);
  }

  lemma QuotientsAscend(a: nat, b: nat, d: nat)
    requires a <= b && d > 0
    ensures a / d <= b / d
  {
    var q, r := a / d, b / d;
    assert q * d <= a && b < r * d + d;
    if r < q {
      Sampling.ProductsAscend(r + 1, q, d);
    }
  }

  /** Status schedules that ran for the interval never fall short of their expected samples, however
      long the calls took. */
  lemma SchedulesMeetTheQuota(i: Interval, p: Periods, begin: int, pipe: Sampling.Course, pty: Sampling.Course)
    requires Usable(p)
    requires (forall k :: pipe.late(k) == 0) && pipe.started <= begin <= begin + i.elapsed <= pipe.stop
    requires (forall k :: pty.late(k) == 0) && pty.started <= begin <= begin + i.elapsed <= pty.stop
    requires SampledBy(i.pipe, Sampling.Rows(Sampling.Every(begin, p.status), pipe))
    requires SampledBy(i.pty, Sampling.Rows(Sampling.Every(begin, p.status), pty))
    ensures StatusFigures(i.pipe + i.pty, StatusExpected(i, p)).samples >= StatusExpected(i, p)
  {
    QuotaOf(i.pipe, begin, p.status, i.elapsed, pipe);
    QuotaOf(i.pty, begin, p.status, i.elapsed, pty);
    CountsOfParts(i.pipe, i.pty, STATUS_P99);
    SamplesAreCounted(i.pipe + i.pty, STATUS_P99);
  }
}
