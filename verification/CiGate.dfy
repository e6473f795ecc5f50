/**
  The gate over a CI run, scripts/check_ci_results.py: the planned legs must have passed, with reports,
  and every other leg must have been skipped. The uploaded artifacts are an input.
*/
module CiGate {
  import opened CiPlan
  import Sorting

  datatype Outcome = Success | Skipped | OtherOutcome
  datatype Step = Step(name: string, passed: bool)
  datatype Report = Report(passed: bool, scope: seq<string>, steps: seq<Step>, head: string)

  /** An uploaded artifact: its directory's name and the reports below it. */
  datatype Artifact = Artifact(name: string, reports: seq<Report>)
  datatype Upload = Upload(attempt: nat, artifact: Artifact)

  /** Which attempt of a leg an artifact's name stands for, if any. */
  type Naming = (Leg, string) -> Option<nat>

  /** What the gate looks at: the jobs it requires, in order, and their results, the run's attempt and
      the artifacts, with how they are named. */
  datatype Run = Run(
    required: seq<string>,
    planJob: string,
    results: map<string, Outcome>,
    attempt: nat,
    artifacts: seq<Artifact>,
    naming: Naming)

  const REQUIRED_JOBS := ["plan", "policy-scan", "rust-clippy", "rust-format", "rust-integration",
                          "rust-linux-isolation", "rust-macos", "rust-unit"]

  // A leg's uploads, from this and earlier attempts of the run.

  const ARTIFACT := "upstream-"

  function Prefix(leg: Leg): string {
    ARTIFACT + leg.job + "-" + leg.name + "-"
  }

  predicate Digits(s: string) {
    s != [] && forall i | 0 <= i < |s| :: '0' <= s[i] <= '9'
  }

  function Number(s: string): nat
    requires s == [] || Digits(s)
  {
    if s == [] then 0 else Number(s[..|s| - 1]) * 10 + (s[|s| - 1] as int - '0' as int)
  }

  /** The repository's naming: a leg's prefix and the attempt's number. */
  function AttemptOf(leg: Leg, name: string): Option<nat> {
    var prefix := Prefix(leg);
    if prefix <= name && Digits(name[|prefix|..]) then Some(Number(name[|prefix|..])) else None
  }

  function Decimal(n: nat): string {
    (if n < 10 then [] else Decimal(n / 10)) + [(n % 10 + '0' as int) as char]
  }

  lemma {:induction false} NumberOfDecimal(n: nat)
    ensures Digits(Decimal(n)) && Number(Decimal(n)) == n
  {
    if n >= 10 {
      NumberOfDecimal(n / 10);
      assert Decimal(n)[..|Decimal(n)| - 1] == Decimal(n / 10);
    } else {
      assert Decimal(n)[..0] == [];
    }
  }

  /** An artifact named for a leg and an attempt stands for that attempt of that leg. */
  lemma NamedForTheAttempt(leg: Leg, attempt: nat)
    ensures AttemptOf(leg, Prefix(leg) + Decimal(attempt)) == Some(attempt)
  {
    NumberOfDecimal(attempt);
    assert (Prefix(leg) + Decimal(attempt))[|Prefix(leg)|..] == Decimal(attempt);
  }

  /** Only such names stand for an attempt: the leg's prefix with digits that make its number. */
  lemma AttemptIff(leg: Leg, name: string, attempt: nat)
    ensures AttemptOf(leg, name) == Some(attempt) <==>
              exists digits :: name == "upstream-" + leg.job + "-" + leg.name + "-" + digits && Digits(digits) && Number(digits) == attempt
  {
  }

  function Uploads(artifacts: seq<Artifact>, leg: Leg, attempt: nat, naming: Naming): seq<Upload> {
    if artifacts == [] then []
    else
      var last := artifacts[|artifacts| - 1];
      var given := naming(leg, last.name);
      Uploads(artifacts[..|artifacts| - 1], leg, attempt, naming)
      + (if given.Some? && given.value <= attempt then [Upload(given.value, last)] else [])
  }

  predicate NameLeq(a: string, b: string) {
    a == [] || (b != [] && (a[0] < b[0] || (a[0] == b[0] && NameLeq(a[1..], b[1..]))))
  }

  /** The order of pairs of an attempt and a path. */
  predicate Older(a: Upload, b: Upload) {
    a.attempt < b.attempt || (a.attempt == b.attempt && NameLeq(a.artifact.name, b.artifact.name))
  }

  lemma {:induction false} NameTotal(a: string, b: string)
    ensures NameLeq(a, b) || NameLeq(b, a)
  {
    if a != [] && b != [] {
      NameTotal(a[1..], b[1..]);
    }
  }

  lemma {:induction false} NameTransitive(a: string, b: string, c: string)
    requires NameLeq(a, b) && NameLeq(b, c)
    ensures NameLeq(a, c)
  {
    if a != [] && a[0] == b[0] == c[0] {
      NameTransitive(a[1..], b[1..], c[1..]);
    }
  }

  lemma OlderIsTotal()
    ensures Sorting.TotalOrder(Older)
  {
    forall a, b ensures Older(a, b) || Older(b, a) {
      NameTotal(a.artifact.name, b.artifact.name);
    }
    forall a, b, c | Older(a, b) && Older(b, c) ensures Older(a, c) {
      if a.attempt == b.attempt == c.attempt {
        NameTransitive(a.artifact.name, b.artifact.name, c.artifact.name);
      }
    }
  }

  method Artifacts(artifacts: seq<Artifact>, leg: Leg, attempt: nat, naming: Naming) returns (found: seq<Upload>)
    ensures found == Sorting.Sort(Older, Uploads(artifacts, leg, attempt, naming))
  {
    found := [];
    for n := 0 to |artifacts|
      invariant found == Uploads(artifacts[..n], leg, attempt, naming)
    {
      assert artifacts[..n + 1][..n] == artifacts[..n];
      var given := naming(leg, artifacts[n].name);
      if given.Some? && given.value <= attempt {
        found := found + [Upload(given.value, artifacts[n])];
      }
    }
    assert artifacts[..|artifacts|] == artifacts;
    found := Sorting.Sort(Older, found);
  }

  // The reports.

  predicate Passing(report: Report, stages: seq<string>, source: string) {
    && report.passed
    && report.scope == stages
    && |report.steps| == |stages|
    && (forall i | 0 <= i < |stages| :: report.steps[i] == Step(stages[i], true))
    && report.head == source
  }

  datatype Problem =
    | WrongJobs
    | NotBound
    | WrongResult(job: string)
    | NoReport(leg: Leg)
    | NotOneReport(leg: Leg)
    | ReportDiffers(leg: Leg)
    | NotPlanned(leg: Leg)

  function ReportProblem(leg: Leg, found: seq<Upload>, stages: seq<string>, source: string): Option<Problem> {
    if found == [] then Some(NoReport(leg))
    else
      var reports := found[|found| - 1].artifact.reports;
      if |reports| != 1 then Some(NotOneReport(leg))
      else if !Passing(reports[0], stages, source) then Some(ReportDiffers(leg))
      else None
  }

  // The plan's binding, and the gate.

  /** The plan is bound to this source, event and policy. */
  predicate Bound(plan: Plan, policy: Policy, digest: string, env: Env) {
    && plan.schema == V1 && Sha(env.sha) && plan.source == env.sha && plan.digest == digest
    && plan.event == env.event
    && plan.profile != OtherProfile
    && NoneTwice(plan.legs)
    && (forall leg | leg in plan.legs :: leg in Names(policy.legs))
    && plan.jobs == Jobs(plan.legs)
    && (plan.profile == Full ==> plan.legs == Names(policy.legs))
    && (plan.event == Schedule || plan.event == Dispatch ==> plan.profile == Full)
  }

  predicate ExpectsSuccess(run: Run, plan: Plan, policy: Policy, job: string) {
    job == run.planJob || job in plan.jobs || exists i :: 0 <= i < |policy.always| && policy.always[i].leg.job == job
  }

  function JobProblem(run: Run, plan: Plan, policy: Policy, job: string): Option<Problem>
    requires job in run.results
  {
    if run.results[job] == (if ExpectsSuccess(run, plan, policy, job) then Success else Skipped) then None
    else Some(WrongResult(job))
  }

  /** The stages a leg must show: a selected leg's own, else those of a leg that always runs. */
  function StagesOf(plan: Plan, policy: Policy, leg: Leg): Option<seq<string>> {
    if leg in plan.legs && Named(policy.legs, leg).Some? then Some(Named(policy.legs, leg).value.stages)
    else Always(policy.always, leg)
  }

  function Named(legs: seq<Spec>, leg: Leg): Option<Spec> {
    if legs == [] then None else if legs[0].leg == leg then Some(legs[0]) else Named(legs[1..], leg)
  }

  function Always(checks: seq<Check>, leg: Leg): Option<seq<string>> {
    if checks == [] then None else if checks[0].leg == leg then Some(checks[0].stages) else Always(checks[1..], leg)
  }

  function LegProblem(run: Run, plan: Plan, policy: Policy, source: string, leg: Leg): Option<Problem> {
    var found := Sorting.Sort(Older, Uploads(run.artifacts, leg, run.attempt, run.naming));
    var stages := StagesOf(plan, policy, leg);
    if stages.Some? then ReportProblem(leg, found, stages.value, source)
    else if found != [] then Some(NotPlanned(leg))
    else None
  }

  /** Every leg of the policy, those that always run first. */
  function AllLegs(policy: Policy): seq<Leg> {
    seq(|policy.always|, i requires 0 <= i < |policy.always| => policy.always[i].leg) + Names(policy.legs)
  }

  /** The problems among the answers, in order. */
  function Found(answers: seq<Option<Problem>>): seq<Problem> {
    if answers == [] then []
    else
      var n := |answers| - 1;
      Found(answers[..n]) + if answers[n].Some? then [answers[n].value] else []
  }

  lemma {:induction false} NothingFoundIff(answers: seq<Option<Problem>>)
    ensures Found(answers) == [] <==> forall i | 0 <= i < |answers| :: answers[i] == None
  {
    if answers != [] {
      var n := |answers| - 1;
      NothingFoundIff(answers[..n]);
      assert answers == answers[..n] + [answers[n]];
    }
  }

  function JobAnswers(run: Run, plan: Plan, policy: Policy): (r: seq<Option<Problem>>)
    requires SeesTheJobs(run)
    ensures |r| == |run.required|
    ensures forall i | 0 <= i < |r| :: r[i] == JobProblem(run, plan, policy, run.required[i])
  {
    seq(|run.required|, i requires 0 <= i < |run.required| => JobProblem(run, plan, policy, run.required[i]))
  }

  function LegAnswers(run: Run, plan: Plan, policy: Policy, source: string): (r: seq<Option<Problem>>)
    ensures |r| == |AllLegs(policy)|
    ensures forall i | 0 <= i < |r| :: r[i] == LegProblem(run, plan, policy, source, AllLegs(policy)[i])
  {
    var legs := AllLegs(policy);
    seq(|legs|, i requires 0 <= i < |legs| => LegProblem(run, plan, policy, source, legs[i]))
  }

  predicate SeesTheJobs(run: Run) {
    run.results.Keys == set job | job in run.required
  }

  /** Every way a run differs from its plan. */
  function ProblemsOf(run: Run, plan: Plan, policy: Policy, digest: string, env: Env): seq<Problem> {
    if !SeesTheJobs(run) then [WrongJobs]
    else if !Bound(plan, policy, digest, env) then [NotBound]
    else Found(JobAnswers(run, plan, policy)) + Found(LegAnswers(run, plan, policy, env.sha))
  }

  method CheckJobs(run: Run, plan: Plan, policy: Policy) returns (found: seq<Problem>)
    requires SeesTheJobs(run)
    ensures found == Found(JobAnswers(run, plan, policy))
  {
    found := [];
    ghost var answers := JobAnswers(run, plan, policy);
    for n := 0 to |run.required|
      invariant found == Found(answers[..n])
    {
      assert answers[..n + 1][..n] == answers[..n];
      var problem := JobProblem(run, plan, policy, run.required[n]);
      if problem.Some? {
        found := found + [problem.value];
      }
    }
    assert answers[..|answers|] == answers;
  }

  method CheckLeg(run: Run, plan: Plan, policy: Policy, source: string, leg: Leg) returns (problem: Option<Problem>)
    ensures problem == LegProblem(run, plan, policy, source, leg)
  {
    var uploads := Artifacts(run.artifacts, leg, run.attempt, run.naming);
    var stages := StagesOf(plan, policy, leg);
    if stages.Some? {
      return ReportProblem(leg, uploads, stages.value, source);
    } else if uploads != [] {
      return Some(NotPlanned(leg));
    }
    return None;
  }

  method CheckLegs(run: Run, plan: Plan, policy: Policy, source: string) returns (found: seq<Problem>)
    ensures found == Found(LegAnswers(run, plan, policy, source))
  {
    found := [];
    var legs := AllLegs(policy);
    ghost var answers := LegAnswers(run, plan, policy, source);
    for n := 0 to |legs|
      invariant found == Found(answers[..n])
    {
      assert answers[..n + 1][..n] == answers[..n];
      var problem := CheckLeg(run, plan, policy, source, legs[n]);
      if problem.Some? {
        found := found + [problem.value];
      }
    }
    assert answers[..|answers|] == answers;
  }

  method Problems(run: Run, plan: Plan, policy: Policy, digest: string, env: Env) returns (found: seq<Problem>)
    ensures found == ProblemsOf(run, plan, policy, digest, env)
  {
    if !SeesTheJobs(run) {
      return [WrongJobs];
    }
    if !Bound(plan, policy, digest, env) {
      return [NotBound];
    }
    found := CheckJobs(run, plan, policy);
    var more := CheckLegs(run, plan, policy, env.sha);
    found := found + more;
  }

  // What the gate guarantees.

  /** What a report says when every stage passed at the source, and nothing else did. */
  ghost function AllPassed(stages: seq<string>, source: string): Report {
    Report(true, stages, seq(|stages|, i requires 0 <= i < |stages| => Step(stages[i], true)), source)
  }

  lemma PassingIff(report: Report, stages: seq<string>, source: string)
    ensures Passing(report, stages, source) <==> report == AllPassed(stages, source)
  {
  }

  /** The newest of a leg's uploads holds exactly one report, which shows the stages passing at the source. */
  ghost predicate NewestPasses(run: Run, leg: Leg, stages: seq<string>, source: string) {
    var uploads := Uploads(run.artifacts, leg, run.attempt, run.naming);
    exists u :: IsNewest(uploads, u) && u.artifact.reports == [AllPassed(stages, source)]
  }

  /** Within one directory no two artifacts have the same name. */
  ghost predicate DistinctNames(artifacts: seq<Artifact>) {
    forall i, j | 0 <= i < |artifacts| && 0 <= j < |artifacts| && artifacts[i].name == artifacts[j].name :: i == j
  }

  /** A leg's uploads are the artifacts that are named for one of its attempts up to this one. */
  lemma {:induction false} UploadsAreArtifacts(artifacts: seq<Artifact>, leg: Leg, attempt: nat, naming: Naming)
    ensures forall u :: u in Uploads(artifacts, leg, attempt, naming) <==>
              u.artifact in artifacts && naming(leg, u.artifact.name) == Some(u.attempt) && u.attempt <= attempt
  {
    if artifacts != [] {
      UploadsAreArtifacts(artifacts[..|artifacts| - 1], leg, attempt, naming);
      assert artifacts == artifacts[..|artifacts| - 1] + [artifacts[|artifacts| - 1]];
    }
  }

  lemma {:induction false} NameAntisymmetric(a: string, b: string)
    requires NameLeq(a, b) && NameLeq(b, a)
    ensures a == b
  {
    if a != [] && b != [] {
      NameAntisymmetric(a[1..], b[1..]);
      assert a == [a[0]] + a[1..] && b == [b[0]] + b[1..];
    }
  }

  lemma LegPassesIff(run: Run, plan: Plan, policy: Policy, source: string, leg: Leg)
    requires DistinctNames(run.artifacts)
    ensures LegProblem(run, plan, policy, source, leg) == None <==> LegPasses(run, plan, policy, source, leg)
  {
    var uploads := Uploads(run.artifacts, leg, run.attempt, run.naming);
    OlderIsTotal();
    Sorting.SortSorts(Older, uploads);
    var stages := StagesOf(plan, policy, leg);
    if stages.Some? {
      NewestPassesIff(run, leg, stages.value, source);
    }
  }

  lemma NewestPassesIff(run: Run, leg: Leg, stages: seq<string>, source: string)
    requires DistinctNames(run.artifacts)
    ensures NewestPasses(run, leg, stages, source) <==>
              ReportProblem(leg, Sorting.Sort(Older, Uploads(run.artifacts, leg, run.attempt, run.naming)), stages, source) == None
  {
    var uploads := Uploads(run.artifacts, leg, run.attempt, run.naming);
    if uploads != [] {
      NewestIsLast(uploads);
      var sorted := Sorting.Sort(Older, uploads);
      var last := sorted[|sorted| - 1];
      assert IsNewest(uploads, last);
      if |last.artifact.reports| == 1 {
        PassingIff(last.artifact.reports[0], stages, source);
        assert last.artifact.reports == [last.artifact.reports[0]];
      }
      if u :| IsNewest(uploads, u) && u.artifact.reports == [AllPassed(stages, source)] {
        NewestIsOne(run, leg, u, last);
      }
    }
  }

  lemma NewestIsLast(uploads: seq<Upload>)
    requires uploads != []
    ensures var sorted := Sorting.Sort(Older, uploads);
            && |sorted| == |uploads| && sorted[|sorted| - 1] in uploads
            && forall v | v in uploads :: Older(v, sorted[|sorted| - 1])
  {
    var sorted := Sorting.Sort(Older, uploads);
    OlderIsTotal();
    Sorting.SortSorts(Older, uploads);
    var last := sorted[|sorted| - 1];
    assert last in multiset(sorted);
    forall v | v in uploads ensures Older(v, last) {
      assert v in multiset(sorted);
      var i :| 0 <= i < |sorted| && sorted[i] == v;
      assert Older(sorted[i], sorted[|sorted| - 1]);
    }
  }

  lemma NewestIsOne(run: Run, leg: Leg, u: Upload, v: Upload)
    requires DistinctNames(run.artifacts) && Older(u, v) && Older(v, u)
    requires u in Uploads(run.artifacts, leg, run.attempt, run.naming) && v in Uploads(run.artifacts, leg, run.attempt, run.naming)
    ensures u == v
  {
    UploadsAreArtifacts(run.artifacts, leg, run.attempt, run.naming);
    NameAntisymmetric(u.artifact.name, v.artifact.name);
  }

  /** What the gate says of a leg is so. */
  lemma LegProblemSays(run: Run, plan: Plan, policy: Policy, source: string, leg: Leg)
    ensures var uploads, stages := Uploads(run.artifacts, leg, run.attempt, run.naming), StagesOf(plan, policy, leg);
            var problem := LegProblem(run, plan, policy, source, leg);
            && (problem == Some(NotPlanned(leg)) <==> stages.None? && uploads != [])
            && (problem == Some(NoReport(leg)) <==> stages.Some? && uploads == [])
            && (problem == Some(NotOneReport(leg)) ==> exists u :: IsNewest(uploads, u) && |u.artifact.reports| != 1)
            && (problem == Some(ReportDiffers(leg)) ==>
                stages.Some? && exists u :: IsNewest(uploads, u) && |u.artifact.reports| == 1
                                            && !Passing(u.artifact.reports[0], stages.value, source))
  {
    var uploads := Uploads(run.artifacts, leg, run.attempt, run.naming);
    OlderIsTotal();
    Sorting.SortSorts(Older, uploads);
    if uploads != [] {
      NewestIsLast(uploads);
      ReportProblemSays(run, plan, policy, source, leg);
    }
  }

  lemma ReportProblemSays(run: Run, plan: Plan, policy: Policy, source: string, leg: Leg)
    requires Uploads(run.artifacts, leg, run.attempt, run.naming) != []
    ensures var uploads, stages := Uploads(run.artifacts, leg, run.attempt, run.naming), StagesOf(plan, policy, leg);
            exists u :: && IsNewest(uploads, u)
                        && (LegProblem(run, plan, policy, source, leg) == Some(NotOneReport(leg)) ==> |u.artifact.reports| != 1)
                        && (LegProblem(run, plan, policy, source, leg) == Some(ReportDiffers(leg)) ==>
                            && stages.Some? && |u.artifact.reports| == 1
                            && !Passing(u.artifact.reports[0], stages.value, source))
  {
    var uploads := Uploads(run.artifacts, leg, run.attempt, run.naming);
    NewestIsLast(uploads);
    var sorted := Sorting.Sort(Older, uploads);
    assert IsNewest(uploads, sorted[|sorted| - 1]);
  }

  ghost predicate IsNewest(uploads: seq<Upload>, u: Upload) {
    u in uploads && forall v | v in uploads :: Older(v, u)
  }

  lemma JobsPassIff(run: Run, plan: Plan, policy: Policy)
    requires SeesTheJobs(run)
    ensures Found(JobAnswers(run, plan, policy)) == [] <==>
              forall job | job in run.results ::
                run.results[job] == if ExpectsSuccess(run, plan, policy, job) then Success else Skipped
  {
    var answers := JobAnswers(run, plan, policy);
    NothingFoundIff(answers);
    forall job | job in run.results ensures exists i :: 0 <= i < |answers| && run.required[i] == job {
      assert job in run.required;
    }
  }

  ghost predicate LegPasses(run: Run, plan: Plan, policy: Policy, source: string, leg: Leg) {
    match StagesOf(plan, policy, leg)
    case Some(stages) => NewestPasses(run, leg, stages, source)
    case None => Uploads(run.artifacts, leg, run.attempt, run.naming) == []
  }

  lemma LegsPassIff(run: Run, plan: Plan, policy: Policy, source: string)
    requires DistinctNames(run.artifacts)
    ensures Found(LegAnswers(run, plan, policy, source)) == [] <==>
              forall i | 0 <= i < |AllLegs(policy)| :: LegPasses(run, plan, policy, source, AllLegs(policy)[i])
  {
    var legs := AllLegs(policy);
    var answers := LegAnswers(run, plan, policy, source);
    NothingFoundIff(answers);
    forall i | 0 <= i < |legs| ensures answers[i] == None <==> LegPasses(run, plan, policy, source, legs[i]) {
      LegPassesIff(run, plan, policy, source, legs[i]);
    }
  }

  /**
    The gate passes exactly when it sees the required jobs and a bound plan, every job that should have
    run succeeded and every other was skipped, each leg that should have run has a newest report that
    shows its stages passing at the source, and no other leg has uploaded anything.
  */
  lemma GatePassesIff(run: Run, plan: Plan, policy: Policy, digest: string, env: Env)
    requires DistinctNames(run.artifacts)
    ensures ProblemsOf(run, plan, policy, digest, env) == [] <==>
              && SeesTheJobs(run) && Bound(plan, policy, digest, env)
              && (forall job | job in run.results ::
                    run.results[job] == if ExpectsSuccess(run, plan, policy, job) then Success else Skipped)
              && forall i | 0 <= i < |AllLegs(policy)| :: LegPasses(run, plan, policy, env.sha, AllLegs(policy)[i])
  {
    if SeesTheJobs(run) && Bound(plan, policy, digest, env) {
      JobsPassIff(run, plan, policy);
      LegsPassIff(run, plan, policy, env.sha);
    }
  }

  /** The gate reports nothing else when it does not see the required jobs, or the plan is not bound. */
  lemma GateStops(run: Run, plan: Plan, policy: Policy, digest: string, env: Env)
    ensures ProblemsOf(run, plan, policy, digest, env) == [WrongJobs] <==> !SeesTheJobs(run)
    ensures ProblemsOf(run, plan, policy, digest, env) == [NotBound] <==> SeesTheJobs(run) && !Bound(plan, policy, digest, env)
  {
    if SeesTheJobs(run) {
      FoundAreAnswers(JobAnswers(run, plan, policy));
      FoundAreAnswers(LegAnswers(run, plan, policy, env.sha));
      NeitherAmong(Found(JobAnswers(run, plan, policy)), Found(LegAnswers(run, plan, policy, env.sha)));
    }
  }

  lemma NeitherAmong(a: seq<Problem>, b: seq<Problem>)
    requires WrongJobs !in a && NotBound !in a && WrongJobs !in b && NotBound !in b
    ensures a + b != [WrongJobs] && a + b != [NotBound]
  {
    assert WrongJobs in [WrongJobs] && NotBound in [NotBound];
  }

  lemma {:induction false} FoundAreAnswers(answers: seq<Option<Problem>>)
    requires forall i | 0 <= i < |answers| :: answers[i] != Some(WrongJobs) && answers[i] != Some(NotBound)
    ensures WrongJobs !in Found(answers) && NotBound !in Found(answers)
  {
    if answers != [] {
      FoundAreAnswers(answers[..|answers| - 1]);
    }
  }

  /** The gate of the repository's own jobs passes only when it sees those eight, its plan among those
      that succeeded. */
  lemma RequiredJobsRan(run: Run, plan: Plan, policy: Policy, digest: string, env: Env)
    requires DistinctNames(run.artifacts) && run.required == REQUIRED_JOBS && run.planJob == REQUIRED_JOBS[0]
    requires ProblemsOf(run, plan, policy, digest, env) == []
    ensures |run.required| == 8 && forall i | 0 <= i < 8 :: run.required[i] in run.results
    ensures forall job | job in run.results :: job in run.required
    ensures run.required[0] in run.results && run.results[run.required[0]] == Success
  {
    GatePassesIff(run, plan, policy, digest, env);
    forall i | 0 <= i < 8 ensures run.required[i] in run.results {
      assert run.required[i] in run.required;
    }
  }

  /** The stages a leg must show, leg by leg. */
  lemma StagesAre(plan: Plan, policy: Policy, leg: Leg)
    requires Distinct(policy.legs)
    ensures forall k | 0 <= k < |policy.legs| && policy.legs[k].leg == leg && leg in plan.legs ::
              StagesOf(plan, policy, leg) == Some(policy.legs[k].stages)
    ensures (leg !in plan.legs || forall k | 0 <= k < |policy.legs| :: policy.legs[k].leg != leg) ==>
              match StagesOf(plan, policy, leg)
              case Some(stages) => exists k :: 0 <= k < |policy.always| && policy.always[k] == Check(leg, stages)
                                               && forall j | 0 <= j < k :: policy.always[j].leg != leg
              case None => forall k | 0 <= k < |policy.always| :: policy.always[k].leg != leg
  {
    forall k | 0 <= k < |policy.legs| && policy.legs[k].leg == leg ensures Named(policy.legs, leg) == Some(policy.legs[k]) {
      NamedIs(policy.legs, k);
    }
    NamedOne(policy.legs, leg);
    AlwaysIs(policy.always, leg);
  }

  lemma {:induction false} NamedOne(legs: seq<Spec>, leg: Leg)
    ensures Named(legs, leg).Some? ==> exists k :: 0 <= k < |legs| && legs[k].leg == leg
  {
    if legs != [] {
      NamedOne(legs[1..], leg);
      assert forall k | 0 <= k < |legs[1..]| :: legs[1..][k] == legs[k + 1];
    }
  }

  lemma {:induction false} AlwaysIs(checks: seq<Check>, leg: Leg)
    ensures match Always(checks, leg)
            case Some(stages) => exists k :: 0 <= k < |checks| && checks[k] == Check(leg, stages)
                                             && forall j | 0 <= j < k :: checks[j].leg != leg
            case None => forall k | 0 <= k < |checks| :: checks[k].leg != leg
  {
    if checks != [] && checks[0].leg != leg {
      var rest := checks[1..];
      AlwaysIs(rest, leg);
      assert forall k | 0 < k < |checks| :: checks[k] == rest[k - 1];
      if Always(rest, leg).Some? {
        var k :| 0 <= k < |rest| && rest[k] == Check(leg, Always(rest, leg).value) && forall j | 0 <= j < k :: rest[j].leg != leg;
        assert checks[k + 1] == rest[k];
      }
    }
  }

  /** A gate that passes has seen the plan of this commit, event and policy: its legs are the policy's, none
      twice, and exactly their jobs, the planning job and those that always run have succeeded, all others
      being skipped. */
  lemma GateBinds(run: Run, plan: Plan, policy: Policy, digest: string, env: Env)
    requires DistinctNames(run.artifacts) && ProblemsOf(run, plan, policy, digest, env) == []
    ensures plan.schema == V1 && plan.profile != OtherProfile && CommitName(env.sha)
    ensures plan.source == env.sha && plan.digest == digest && plan.event == env.event
    ensures forall leg | leg in plan.legs :: OfPolicy(policy, leg)
    ensures forall i, j | 0 <= i < j < |plan.legs| :: plan.legs[i] != plan.legs[j]
    ensures forall job | job in run.results ::
              run.results[job] == if ShouldSucceed(run, plan, policy, job) then Success else Skipped
  {
    GatePassesIff(run, plan, policy, digest, env);
    CommitNames(env.sha);
    BoundLegs(plan, policy, digest, env);
    JobsRan(run, plan, policy);
  }

  lemma JobsRan(run: Run, plan: Plan, policy: Policy)
    requires plan.jobs == Jobs(plan.legs)
    requires forall job | job in run.results ::
               run.results[job] == if ExpectsSuccess(run, plan, policy, job) then Success else Skipped
    ensures forall job | job in run.results ::
              run.results[job] == if ShouldSucceed(run, plan, policy, job) then Success else Skipped
  {
  }

  ghost predicate OfPolicy(policy: Policy, leg: Leg) {
    exists k :: 0 <= k < |policy.legs| && policy.legs[k].leg == leg
  }

  lemma BoundLegs(plan: Plan, policy: Policy, digest: string, env: Env)
    requires Bound(plan, policy, digest, env)
    ensures forall leg | leg in plan.legs :: OfPolicy(policy, leg)
  {
  }

  /** The planning job, a selected leg's, or one that always runs. */
  ghost predicate ShouldSucceed(run: Run, plan: Plan, policy: Policy, job: string) {
    || job == run.planJob || (exists i :: 0 <= i < |plan.legs| && plan.legs[i].job == job)
    || (exists i :: 0 <= i < |policy.always| && policy.always[i].leg.job == job)
  }

  /** A scheduled or dispatched run, and any full one, passes only when every leg of the policy has shown
      its stages passing at the source. */
  lemma FullRunsCoverEverything(run: Run, plan: Plan, policy: Policy, digest: string, env: Env, k: nat)
    requires Distinct(policy.legs) && DistinctNames(run.artifacts) && k < |policy.legs|
    requires ProblemsOf(run, plan, policy, digest, env) == []
    requires env.event == Schedule || env.event == Dispatch || plan.profile == Full
    ensures NewestPasses(run, policy.legs[k].leg, policy.legs[k].stages, env.sha)
  {
    BoundWhenPassing(run, plan, policy, digest, env);
    FullSelectsAll(plan, policy, digest, env, k);
    SelectedPasses(run, plan, policy, digest, env, k);
  }

  lemma BoundWhenPassing(run: Run, plan: Plan, policy: Policy, digest: string, env: Env)
    requires ProblemsOf(run, plan, policy, digest, env) == []
    ensures Bound(plan, policy, digest, env)
  {
  }

  lemma FullSelectsAll(plan: Plan, policy: Policy, digest: string, env: Env, k: nat)
    requires Bound(plan, policy, digest, env) && k < |policy.legs|
    requires env.event == Schedule || env.event == Dispatch || plan.profile == Full
    ensures policy.legs[k].leg in plan.legs
  {
  }

  /** A selected leg has a newest report that shows its stages passing at the source. */
  lemma SelectedPasses(run: Run, plan: Plan, policy: Policy, digest: string, env: Env, k: nat)
    requires Distinct(policy.legs) && DistinctNames(run.artifacts) && k < |policy.legs| && policy.legs[k].leg in plan.legs
    requires ProblemsOf(run, plan, policy, digest, env) == []
    ensures NewestPasses(run, policy.legs[k].leg, policy.legs[k].stages, env.sha)
  {
    NamedIs(policy.legs, k);
    assert StagesOf(plan, policy, policy.legs[k].leg) == Some(policy.legs[k].stages);
    assert AllLegs(policy)[|policy.always| + k] == policy.legs[k].leg;
    PlannedPasses(run, plan, policy, digest, env, |policy.always| + k);
  }

  // Plans and the gate together.

  lemma BuiltIsBound(policy: Policy, digest: string, env: Env, base: Option<string>, paths: seq<string>, reasons: set<Reason>)
    requires Distinct(policy.legs) && Sha(env.sha)
    requires env.event == Schedule || env.event == Dispatch ==> reasons != {}
    ensures Bound(BuildPlan(policy, digest, env.event, env.sha, base, paths, reasons), policy, digest, env)
  {
    var plan := BuildPlan(policy, digest, env.event, env.sha, base, paths, reasons);
    var components, full := Components(policy, paths), AllReasons(policy, base, paths, reasons) != {};
    assert plan.legs == Select(policy.legs, components, full);
    SelectIsPart(policy.legs, components, full);
    SelectOnce(policy.legs, components, full);
    AnyReason(policy, base, paths, reasons);
    forall leg | leg in plan.legs ensures leg in Names(policy.legs) {
      var i :| 0 <= i < |policy.legs| && policy.legs[i].leg == leg;
      assert Names(policy.legs)[i] == leg;
    }
  }

  /** Every plan that is prepared passes the gate's binding check. */
  lemma PreparedIsBound(repo: Repository, env: Env, payload: Payload, policy: Policy, digest: string)
    requires Distinct(policy.legs) && Prepare(repo, env, payload, policy, digest).Ok?
    ensures Bound(Prepare(repo, env, payload, policy, digest).value, policy, digest, env)
  {
    match env.event
    case Schedule => BuiltIsBound(policy, digest, env, None, [], {ByEvent(env.event)});
    case Dispatch => BuiltIsBound(policy, digest, env, None, [], {ByEvent(env.event)});
    case PullRequest => AgainstIsBound(repo, env, policy, digest, repo.parents[1]);
    case Push =>
      BuiltIsBound(policy, digest, env, None, [], {BaseUntrusted});
      AgainstIsBound(repo, env, policy, digest, payload.before);
  }

  lemma AgainstIsBound(repo: Repository, env: Env, policy: Policy, digest: string, base: string)
    requires Distinct(policy.legs) && Sha(env.sha) && repo.head == env.sha
    requires env.event == PullRequest || env.event == Push
    ensures Bound(Against(repo, env, policy, digest, base), policy, digest, env)
  {
    BuiltIsBound(policy, digest, env, Some(base), repo.changed(base), if repo.planningChanged(base) then {PlanningChanged} else {});
  }

  /** From a change to its gate: when the gate passes over the plan that was prepared, every leg the run
      demands, because a path that differs from its base needs it or there is no base, has a newest
      report that shows its stages passing at the source. */
  lemma GateCoversTheChange(run: Run, repo: Repository, env: Env, payload: Payload, policy: Policy, digest: string, k: nat)
    requires Distinct(policy.legs) && DistinctNames(run.artifacts) && k < |policy.legs|
    requires Prepare(repo, env, payload, policy, digest).Ok?
    requires ProblemsOf(run, Prepare(repo, env, payload, policy, digest).value, policy, digest, env) == []
    requires Demands(repo, env, payload, policy, policy.legs[k])
    ensures NewestPasses(run, policy.legs[k].leg, policy.legs[k].stages, env.sha)
  {
    var plan := Prepare(repo, env, payload, policy, digest).value;
    PreparedSelectsIff(repo, env, payload, policy, digest, k);
    SelectedPasses(run, plan, policy, digest, env, k);
  }

  lemma PlannedPasses(run: Run, plan: Plan, policy: Policy, digest: string, env: Env, i: nat)
    requires DistinctNames(run.artifacts) && i < |AllLegs(policy)|
    requires ProblemsOf(run, plan, policy, digest, env) == []
    ensures LegPasses(run, plan, policy, env.sha, AllLegs(policy)[i])
  {
    GatePassesIff(run, plan, policy, digest, env);
  }

  lemma {:induction false} NamedIs(legs: seq<Spec>, k: nat)
    requires Distinct(legs) && k < |legs|
    ensures Named(legs, legs[k].leg) == Some(legs[k])
  {
    if k > 0 {
      assert legs[0].leg != legs[k].leg && legs[1..][k - 1] == legs[k];
      NamedIs(legs[1..], k - 1);
    }
  }
}
