/**
  The verdict of a whole control measurement: repetitions, combinations and the run,
  scripts/qualify-devguard.py and scripts/qualify_analysis.py. Measurements are inputs.
*/
module Qualification {
  import opened Verdicts
  import opened Percentile

  datatype Service = Service(runsRelease: bool, pid: int)

  /** One repetition's evidence. The intervals are measured only when nothing ended it early; `warm` is
      whether a warm target directory was built, where the load wants one. */
  datatype Repetition = Repetition(before: Service, warm: Option<bool>, idle: Interval, load: Interval, after: Service)

  function EarlyOutcome(r: Repetition): Option<Report> {
    if !r.before.runsRelease then Some(Report(Inconclusive, [NotTheRelease]))
    else if r.warm == Some(false) then Some(Report(Inconclusive, [NoWarmTarget]))
    else None
  }

  /** The load is judged only over an idle baseline that passed. */
  function RepetitionVerdict(idle: Report, load: Report): Report {
    if idle.verdict != Pass then Report(Inconclusive, [Baseline(idle.verdict)] + idle.reasons)
    else if load.verdict != Pass then load
    else Report(Pass, [])
  }

  /** The two intervals' verdict, unless the service changed or the run was a rehearsal. */
  function Settled(before: Service, after: Service, idle: Report, load: Report, rehearsal: bool): Report {
    var judged := RepetitionVerdict(idle, load);
    var settled :=
      if judged.verdict == Pass && !(after.runsRelease && after.pid == before.pid)
      then Report(Inconclusive, judged.reasons + [ServiceChanged]) else judged;
    if rehearsal then Report(Inconclusive, settled.reasons + [RehearsalRun]) else settled
  }

  function RepetitionOutcome(r: Repetition, rehearsal: bool, p: Periods): Report
    requires Usable(p)
  {
    Settled(r.before, r.after, IntervalVerdict(r.idle, p), IntervalVerdict(r.load, p), rehearsal)
  }

  function Concluded(r: Repetition, rehearsal: bool, p: Periods): Report
    requires Usable(p)
  {
    if EarlyOutcome(r).Some? then EarlyOutcome(r).value else RepetitionOutcome(r, rehearsal, p)
  }

  datatype Overall = Qualified | Failed | Undecided

  function CombinationVerdict(verdicts: seq<Verdict>, required: int): Overall {
    if required < 1 || verdicts == [] then Undecided
    else if Fail in verdicts then Failed
    else if |verdicts| >= required && forall i | 0 <= i < |verdicts| :: verdicts[i] == Pass then Qualified
    else Undecided
  }

  /** A plan or the protocol: the transports to measure, how often, and for how long. */
  datatype Plan = Plan(combinations: set<string>, repetitions: int, idle: int, load: int)

  predicate Full(plan: Plan, protocol: Plan, rehearsal: bool) {
    && !rehearsal
    && protocol.combinations <= plan.combinations
    && protocol.repetitions <= plan.repetitions
    && protocol.idle <= plan.idle
    && protocol.load <= plan.load
  }

  function OverallVerdict(verdicts: map<string, Overall>, plan: Plan, protocol: Plan, rehearsal: bool): Overall {
    if exists m :: m in verdicts && verdicts[m] == Failed then Failed
    else if Full(plan, protocol, rehearsal) && verdicts.Keys != {} && forall m | m in verdicts :: verdicts[m] == Qualified
    then Qualified
    else Undecided
  }

  function Conclusions(repetitions: seq<Repetition>, rehearsal: bool, p: Periods): (r: seq<Verdict>)
    requires Usable(p)
    ensures |r| == |repetitions|
    ensures forall i | 0 <= i < |r| :: r[i] == Concluded(repetitions[i], rehearsal, p).verdict
  {
    seq(|repetitions|, i requires 0 <= i < |repetitions| => Concluded(repetitions[i], rehearsal, p).verdict)
  }

  /** A control interval expects every release, and as many terminations as its period gives. */
  ghost predicate Usual(i: Interval) {
    i.releaseExpected && i.terminationsExpected == None
  }

  /** What was measured: every combination of the plan, as often as it says, in control intervals. */
  ghost predicate Measured(plan: Plan, results: map<string, seq<Repetition>>) {
    && results.Keys == plan.combinations
    && (forall m | m in results :: |results[m]| == Max(0, plan.repetitions))
    && forall m, i | m in results && 0 <= i < |results[m]| :: Usual(results[m][i].idle) && Usual(results[m][i].load)
  }

  function Control(plan: Plan, protocol: Plan, rehearsal: bool, p: Periods, results: map<string, seq<Repetition>>): Overall
    requires Usable(p)
  {
    OverallVerdict(map m | m in results :: CombinationVerdict(Conclusions(results[m], rehearsal, p), plan.repetitions),
                   plan, protocol, rehearsal)
  }

  /** A repetition in which the release served throughout and both intervals' evidence is sound. */
  ghost predicate Good(r: Repetition, p: Periods)
    requires Usable(p)
  {
    && r.before.runsRelease && r.after == r.before && r.warm != Some(false)
    && Sound(r.idle, p) && Sound(r.load, p)
  }

  lemma RepetitionPassesIff(r: Repetition, rehearsal: bool, p: Periods)
    requires Usable(p)
    ensures Concluded(r, rehearsal, p).verdict == Pass <==> !rehearsal && Good(r, p)
  {
    IntervalPassesIff(r.idle, p);
    IntervalPassesIff(r.load, p);
    PassesWhenGood(r, rehearsal, p, IntervalVerdict(r.idle, p), IntervalVerdict(r.load, p));
  }

  lemma PassesWhenGood(r: Repetition, rehearsal: bool, p: Periods, idle: Report, load: Report)
    requires Usable(p) && (idle.verdict == Pass <==> Sound(r.idle, p)) && (load.verdict == Pass <==> Sound(r.load, p))
    ensures var early := EarlyOutcome(r);
            var outcome := if early.Some? then early.value else Settled(r.before, r.after, idle, load, rehearsal);
            outcome.verdict == Pass <==> !rehearsal && Good(r, p)
  {
  }

  lemma RepetitionFailsIff(r: Repetition, rehearsal: bool, p: Periods)
    requires Usable(p)
    ensures Concluded(r, rehearsal, p).verdict == Fail <==> LoadFailed(r, rehearsal, p)
  {
    IntervalPassesIff(r.idle, p);
    IntervalFailsIff(r.load, p);
    FailsWhenLoadFailed(r, rehearsal, p, IntervalVerdict(r.idle, p), IntervalVerdict(r.load, p));
  }

  lemma FailsWhenLoadFailed(r: Repetition, rehearsal: bool, p: Periods, idle: Report, load: Report)
    requires Usable(p) && (idle.verdict == Pass <==> Sound(r.idle, p)) && (load.verdict == Fail <==> Failing(r.load))
    ensures var early := EarlyOutcome(r);
            var outcome := if early.Some? then early.value else Settled(r.before, r.after, idle, load, rehearsal);
            outcome.verdict == Fail <==> LoadFailed(r, rehearsal, p)
  {
  }

  /** Why a repetition was not judged by its load: the service was not the release, no warm target was
      built, the baseline did not pass, the service changed under a pass, or it was a rehearsal. */
  lemma RepetitionReasons(r: Repetition, rehearsal: bool, p: Periods, verdict: Verdict)
    requires Usable(p)
    ensures var reasons := Concluded(r, rehearsal, p).reasons;
            var measured := r.before.runsRelease && r.warm != Some(false);
            && (NotTheRelease in reasons <==> !r.before.runsRelease)
            && (NoWarmTarget in reasons <==> r.before.runsRelease && r.warm == Some(false))
            && (Baseline(verdict) in reasons <==>
                measured && verdict != Pass && verdict == IntervalVerdict(r.idle, p).verdict)
            && (ServiceChanged in reasons <==>
                measured && Sound(r.idle, p) && Sound(r.load, p) && !(r.after.runsRelease && r.after.pid == r.before.pid))
            && (RehearsalRun in reasons <==> measured && rehearsal)
  {
    IntervalPassesIff(r.idle, p);
    IntervalPassesIff(r.load, p);
    IntervalsSpeakOfThemselves(r.idle, p);
    IntervalsSpeakOfThemselves(r.load, p);
    SettledReasons(r.before, r.after, IntervalVerdict(r.idle, p), IntervalVerdict(r.load, p), rehearsal, verdict);
  }

  lemma SettledReasons(before: Service, after: Service, idle: Report, load: Report, rehearsal: bool, verdict: Verdict)
    requires forall reason | reason in idle.reasons || reason in load.reasons :: OfAnInterval(reason)
    ensures var reasons := Settled(before, after, idle, load, rehearsal).reasons;
            && NotTheRelease !in reasons && NoWarmTarget !in reasons
            && (Baseline(verdict) in reasons <==> verdict != Pass && verdict == idle.verdict)
            && (ServiceChanged in reasons <==>
                idle.verdict == Pass && load.verdict == Pass && !(after.runsRelease && after.pid == before.pid))
            && (RehearsalRun in reasons <==> rehearsal)
  {
  }

  lemma CombinationQualifiesIff(repetitions: seq<Repetition>, rehearsal: bool, p: Periods, required: int)
    requires Usable(p)
    ensures CombinationVerdict(Conclusions(repetitions, rehearsal, p), required) == Qualified <==>
              !rehearsal && 1 <= required <= |repetitions| && forall i | 0 <= i < |repetitions| :: Good(repetitions[i], p)
  {
    var verdicts := Conclusions(repetitions, rehearsal, p);
    forall i | 0 <= i < |repetitions| ensures verdicts[i] == Pass <==> !rehearsal && Good(repetitions[i], p) {
      RepetitionPassesIff(repetitions[i], rehearsal, p);
    }
    AllPassIff(verdicts, required);
    if verdicts != [] {
      assert verdicts[0] == Pass <==> !rehearsal && Good(repetitions[0], p);
    }
  }

  lemma AllPassIff(verdicts: seq<Verdict>, required: int)
    ensures CombinationVerdict(verdicts, required) == Qualified <==>
              1 <= required <= |verdicts| && forall i | 0 <= i < |verdicts| :: verdicts[i] == Pass
    ensures CombinationVerdict(verdicts, required) == Failed <==>
              1 <= required && exists i :: 0 <= i < |verdicts| && verdicts[i] == Fail
  {
  }

  /**
    A run is qualified if and only if it is the full protocol and, in every repetition of every
    combination, the release served throughout and the evidence of both intervals is sound: no invalid
    observation, at least 90 of 100 expected status samples, 99 of 100 counted ones answered within
    500 ms, the same for terminations within 1000 ms and 80 of 100, every acknowledged termination
    effective and released, no lost connection, and a journal without a second launch.
  */
  lemma QualifiedIff(plan: Plan, protocol: Plan, rehearsal: bool, p: Periods, results: map<string, seq<Repetition>>)
    requires Usable(p) && Measured(plan, results)
    ensures Control(plan, protocol, rehearsal, p, results) == Qualified <==>
              && !rehearsal && plan.combinations != {} && plan.repetitions >= 1
              && protocol.combinations <= plan.combinations && protocol.repetitions <= plan.repetitions
              && protocol.idle <= plan.idle && protocol.load <= plan.load
              && forall m, i | m in results && 0 <= i < |results[m]| :: Good(results[m][i], p)
  {
    var verdicts := map m | m in results :: CombinationVerdict(Conclusions(results[m], rehearsal, p), plan.repetitions);
    assert verdicts.Keys == results.Keys;
    forall m | m in results
      ensures verdicts[m] == Qualified <==>
                !rehearsal && 1 <= plan.repetitions && forall i | 0 <= i < |results[m]| :: Good(results[m][i], p)
    {
      CombinationQualifiesIff(results[m], rehearsal, p, plan.repetitions);
    }
    if plan.combinations != {} {
      var m :| m in results;
      assert verdicts[m] == Qualified ==> 1 <= plan.repetitions;
    }
  }

  /** In particular, every combination of the protocol was measured at least as often as it asks. */
  lemma QualifiedCoversTheProtocol(plan: Plan, protocol: Plan, rehearsal: bool, p: Periods, results: map<string, seq<Repetition>>, m: string)
    requires Usable(p) && Measured(plan, results) && m in protocol.combinations
    requires Control(plan, protocol, rehearsal, p, results) == Qualified
    ensures m in results && |results[m]| >= protocol.repetitions
    ensures forall i | 0 <= i < |results[m]| :: Sound(results[m][i].idle, p) && Sound(results[m][i].load, p)
  {
    QualifiedIff(plan, protocol, rehearsal, p, results);
    forall i | 0 <= i < |results[m]| ensures Sound(results[m][i].idle, p) && Sound(results[m][i].load, p) {
      assert Good(results[m][i], p);
    }
  }

  /** A run fails exactly where some repetition's load showed a failure over a sound idle baseline. */
  lemma FailedIff(plan: Plan, protocol: Plan, rehearsal: bool, p: Periods, results: map<string, seq<Repetition>>)
    requires Usable(p) && Measured(plan, results)
    ensures Control(plan, protocol, rehearsal, p, results) == Failed <==>
              exists m, i :: m in results && 0 <= i < |results[m]| && LoadFailed(results[m][i], rehearsal, p)
  {
    var verdicts := map m | m in results :: CombinationVerdict(Conclusions(results[m], rehearsal, p), plan.repetitions);
    forall m | m in results
      ensures verdicts[m] == Failed <==> exists i :: 0 <= i < |results[m]| && LoadFailed(results[m][i], rehearsal, p)
    {
      CombinationFailsIff(results[m], rehearsal, p, plan.repetitions);
    }
  }

  ghost predicate LoadFailed(r: Repetition, rehearsal: bool, p: Periods)
    requires Usable(p)
  {
    && !rehearsal && r.before.runsRelease && r.warm != Some(false)
    && Sound(r.idle, p) && Failing(r.load)
  }

  lemma CombinationFailsIff(repetitions: seq<Repetition>, rehearsal: bool, p: Periods, required: int)
    requires Usable(p) && |repetitions| == Max(0, required)
    ensures CombinationVerdict(Conclusions(repetitions, rehearsal, p), required) == Failed <==>
              exists i :: 0 <= i < |repetitions| && LoadFailed(repetitions[i], rehearsal, p)
  {
    var verdicts := Conclusions(repetitions, rehearsal, p);
    forall i | 0 <= i < |repetitions| ensures verdicts[i] == Fail <==> LoadFailed(repetitions[i], rehearsal, p) {
      RepetitionFailsIff(repetitions[i], rehearsal, p);
    }
    AllPassIff(verdicts, required);
  }
}
