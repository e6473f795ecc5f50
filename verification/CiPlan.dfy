/**
  Which CI legs a change needs, scripts/ci_plan.py. What git and the event say is an input. A sorted
  list of distinct names is modelled by the set of them, and a leg's key by its two parts.
*/
module CiPlan {
  import Glob

  datatype Option<T> = None | Some(value: T)
  datatype Result<T> = Ok(value: T) | Err(error: PlanError)
  datatype PlanError = NotTheCheckout | NotTheMerge | UnsupportedEvent

  datatype Leg = Leg(job: string, name: string)
  datatype Spec = Spec(leg: Leg, compiles: set<string>, stages: seq<string>)
  datatype Component = Component(name: string, patterns: seq<string>)
  datatype Check = Check(leg: Leg, stages: seq<string>)
  datatype Policy = Policy(
    full: seq<string>,
    noRust: seq<string>,
    components: seq<Component>,
    always: seq<Check>,
    legs: seq<Spec>)

  datatype EventName = Schedule | Dispatch | PullRequest | Push | Other(name: string)
  datatype Profile = Full | Affected | OtherProfile
  datatype Schema = V1 | OtherSchema

  /** Why a run is full. */
  datatype Reason =
    | FullPath(pattern: string)
    | Unclassified(path: string)
    | EmptyDiff
    | PlanningChanged
    | ByEvent(event: EventName)
    | BaseUntrusted

  datatype Plan = Plan(
    schema: Schema,
    event: EventName,
    source: string,
    base: Option<string>,
    digest: string,
    profile: Profile,
    reasons: set<Reason>,
    components: set<string>,
    legs: seq<Leg>,
    jobs: set<string>)

  predicate Matches(patterns: seq<string>, path: string) {
    exists i :: 0 <= i < |patterns| && Glob.Match(Glob.Parse(patterns[i]), path)
  }

  /** The first pattern that matches, as the reason names it. */
  function FirstMatch(patterns: seq<string>, path: string): (r: Option<string>)
    ensures r.Some? <==> Matches(patterns, path)
  {
    if patterns == [] then None
    else if Glob.Match(Glob.Parse(patterns[0]), path) then Some(patterns[0])
    else
      var rest := FirstMatch(patterns[1..], path);
      assert Matches(patterns, path) <==> Matches(patterns[1..], path) by {
        assert forall i | 0 <= i < |patterns[1..]| :: patterns[1..][i] == patterns[i + 1];
        assert forall i | 0 < i < |patterns| :: patterns[i] == patterns[1..][i - 1];
      }
      rest
  }

  /** The components whose patterns match a path. */
  function Owners(components: seq<Component>, path: string): set<string> {
    if components == [] then {}
    else (if Matches(components[0].patterns, path) then {components[0].name} else {}) + Owners(components[1..], path)
  }

  datatype Kind = Everything(pattern: string) | Documentation | Owned(owners: set<string>)

  function KindOf(policy: Policy, path: string): Kind {
    var full := FirstMatch(policy.full, path);
    if full.Some? then Everything(full.value)
    else if Matches(policy.noRust, path) then Documentation
    else Owned(Owners(policy.components, path))
  }

  function Components(policy: Policy, paths: seq<string>): set<string> {
    if paths == [] then {}
    else
      var last := KindOf(policy, paths[|paths| - 1]);
      Components(policy, paths[..|paths| - 1]) + (if last.Owned? then last.owners else {})
  }

  function FullPaths(policy: Policy, paths: seq<string>): set<Reason> {
    if paths == [] then {}
    else
      var last := KindOf(policy, paths[|paths| - 1]);
      FullPaths(policy, paths[..|paths| - 1]) + (if last.Everything? then {FullPath(last.pattern)} else {})
  }

  function Unknown(policy: Policy, paths: seq<string>): seq<string> {
    if paths == [] then []
    else
      var path := paths[|paths| - 1];
      Unknown(policy, paths[..|paths| - 1]) + (if KindOf(policy, path) == Owned({}) then [path] else [])
  }

  /** The reason for each of the first unknown paths. */
  function Unclassifieds(unknown: seq<string>): set<Reason> {
    set i | 0 <= i < |unknown| && i < 10 :: Unclassified(unknown[i])
  }

  /** One pass over the changed paths: which components they belong to, and why the run must be full. */
  method Classify(policy: Policy, paths: seq<string>) returns (components: set<string>, reasons: set<Reason>)
    ensures components == Components(policy, paths)
    ensures reasons == FullPaths(policy, paths) + Unclassifieds(Unknown(policy, paths))
  {
    components, reasons := {}, {};
    var unknown: seq<string> := [];
    for n := 0 to |paths|
      invariant components == Components(policy, paths[..n])
      invariant reasons == FullPaths(policy, paths[..n])
      invariant unknown == Unknown(policy, paths[..n])
    {
      assert paths[..n + 1][..n] == paths[..n];
      var full := FirstMatch(policy.full, paths[n]);
      if full.Some? {
        reasons := reasons + {FullPath(full.value)};
      } else if !Matches(policy.noRust, paths[n]) {
        var owners := Owners(policy.components, paths[n]);
        components := components + owners;
        if owners == {} {
          unknown := unknown + [paths[n]];
        }
      }
    }
    assert paths[..|paths|] == paths;
    reasons := reasons + Unclassifieds(unknown);
  }

  /** The legs of the policy, in its order, that a full run or a changed component selects. */
  function Select(legs: seq<Spec>, components: set<string>, full: bool): seq<Leg> {
    if legs == [] then []
    else
      (if full || components * legs[0].compiles != {} then [legs[0].leg] else [])
      + Select(legs[1..], components, full)
  }

  function Names(legs: seq<Spec>): (r: seq<Leg>)
    ensures |r| == |legs| && forall i | 0 <= i < |r| :: r[i] == legs[i].leg
  {
    seq(|legs|, i requires 0 <= i < |legs| => legs[i].leg)
  }

  function Jobs(legs: seq<Leg>): set<string> {
    set i | 0 <= i < |legs| :: legs[i].job
  }

  /** Every reason for the run to be full. */
  function AllReasons(policy: Policy, base: Option<string>, paths: seq<string>, reasons: set<Reason>): set<Reason> {
    reasons + FullPaths(policy, paths) + Unclassifieds(Unknown(policy, paths))
    + (if base.Some? && paths == [] then {EmptyDiff} else {})
  }

  function BuildPlan(policy: Policy, digest: string, event: EventName, source: string, base: Option<string>,
                     paths: seq<string>, reasons: set<Reason>): Plan
  {
    var all := AllReasons(policy, base, paths, reasons);
    var components := Components(policy, paths);
    var legs := Select(policy.legs, components, all != {});
    Plan(V1, event, source, base, digest, if all != {} then Full else Affected, all, components, legs, Jobs(legs))
  }

  // What a plan selects, path by path.

  /** A path is one that some pattern stands for. */
  ghost predicate Among(patterns: seq<string>, path: string) {
    exists i :: 0 <= i < |patterns| && Glob.Denotes(Glob.Parse(patterns[i]), path)
  }

  /** A component has a path. */
  ghost predicate Owns(component: Component, path: string) {
    Among(component.patterns, path)
  }

  /** A changed path needs a leg: it is a build or CI input, nothing is known about it, or a component
      it belongs to is compiled there. */
  ghost predicate Needs(policy: Policy, path: string, spec: Spec) {
    || Among(policy.full, path)
    || (&& !Among(policy.noRust, path)
        && (|| (forall i | 0 <= i < |policy.components| :: !Owns(policy.components[i], path))
            || exists i :: 0 <= i < |policy.components| && Owns(policy.components[i], path)
                           && policy.components[i].name in spec.compiles))
  }

  lemma AmongIff(patterns: seq<string>, path: string)
    ensures Matches(patterns, path) <==> Among(patterns, path)
  {
    forall i | 0 <= i < |patterns|
      ensures Glob.Match(Glob.Parse(patterns[i]), path) <==> Glob.Denotes(Glob.Parse(patterns[i]), path)
    {
      Glob.MatchIff(Glob.Parse(patterns[i]), path);
    }
  }

  lemma {:induction false} OwnersIff(components: seq<Component>, path: string, name: string)
    ensures name in Owners(components, path) <==>
              exists i :: 0 <= i < |components| && Owns(components[i], path) && components[i].name == name
  {
    if components != [] {
      OwnersIff(components[1..], path, name);
      AmongIff(components[0].patterns, path);
      assert forall i | 0 < i < |components| :: components[i] == components[1..][i - 1];
      assert forall i | 0 <= i < |components[1..]| :: components[1..][i] == components[i + 1];
    }
  }

  lemma NeedsIff(policy: Policy, path: string, spec: Spec)
    ensures Needs(policy, path, spec) <==>
              match KindOf(policy, path)
              case Everything(_) => true
              case Documentation => false
              case Owned(owners) => owners == {} || owners * spec.compiles != {}
  {
    AmongIff(policy.full, path);
    AmongIff(policy.noRust, path);
    OwnedIff(policy.components, path, spec.compiles);
  }

  lemma OwnedIff(components: seq<Component>, path: string, compiles: set<string>)
    ensures Owners(components, path) == {} <==> forall i | 0 <= i < |components| :: !Owns(components[i], path)
    ensures Owners(components, path) * compiles != {} <==>
              exists i :: 0 <= i < |components| && Owns(components[i], path) && components[i].name in compiles
  {
    var owners := Owners(components, path);
    forall name ensures name in owners <==> exists i :: 0 <= i < |components| && Owns(components[i], path) && components[i].name == name {
      OwnersIff(components, path, name);
    }
    forall i | 0 <= i < |components| && Owns(components[i], path)
      ensures components[i].name in owners && (components[i].name in compiles ==> components[i].name in owners * compiles) {
    }
    if name :| name in owners * compiles {
      assert name in owners;
    }
  }

  ghost predicate Distinct(legs: seq<Spec>) {
    forall i, j | 0 <= i < j < |legs| :: legs[i].leg != legs[j].leg
  }

  lemma {:induction false} SelectedIff(legs: seq<Spec>, components: set<string>, full: bool, k: nat)
    requires Distinct(legs) && k < |legs|
    ensures legs[k].leg in Select(legs, components, full) <==> full || components * legs[k].compiles != {}
  {
    NotAgain(legs, components, full);
    if k > 0 {
      SelectedIff(legs[1..], components, full, k - 1);
      assert legs[0].leg != legs[k].leg && legs[1..][k - 1] == legs[k];
    }
  }

  lemma NotAgain(legs: seq<Spec>, components: set<string>, full: bool)
    requires Distinct(legs) && legs != []
    ensures legs[0].leg !in Select(legs[1..], components, full)
  {
    SelectIsPart(legs[1..], components, full);
    forall leg | leg in Select(legs[1..], components, full) ensures leg != legs[0].leg {
      var i :| 0 <= i < |legs[1..]| && legs[1..][i].leg == leg;
      assert legs[i + 1].leg != legs[0].leg;
    }
  }

  /** A selection takes only legs of the policy and, when full, all of them in the policy's order. */
  lemma {:induction false} SelectIsPart(legs: seq<Spec>, components: set<string>, full: bool)
    ensures forall leg | leg in Select(legs, components, full) :: exists i :: 0 <= i < |legs| && legs[i].leg == leg
    ensures full ==> Select(legs, components, full) == Names(legs)
  {
    if legs != [] {
      var rest := Select(legs[1..], components, full);
      SelectIsPart(legs[1..], components, full);
      forall leg | leg in Select(legs, components, full) ensures exists i :: 0 <= i < |legs| && legs[i].leg == leg {
        if leg in rest {
          var i :| 0 <= i < |legs[1..]| && legs[1..][i].leg == leg;
          assert legs[i + 1].leg == leg;
        } else {
          assert legs[0].leg == leg;
        }
      }
    }
  }

  predicate NoneTwice(legs: seq<Leg>) {
    forall i, j | 0 <= i < j < |legs| :: legs[i] != legs[j]
  }

  lemma {:induction false} SelectOnce(legs: seq<Spec>, components: set<string>, full: bool)
    requires Distinct(legs)
    ensures NoneTwice(Select(legs, components, full))
  {
    if legs != [] {
      var rest := Select(legs[1..], components, full);
      SelectOnce(legs[1..], components, full);
      NotAgain(legs, components, full);
      var s := Select(legs, components, full);
      assert s == rest || s == [legs[0].leg] + rest;
    }
  }

  lemma {:induction false} FullPathsIff(policy: Policy, paths: seq<string>)
    ensures FullPaths(policy, paths) != {} <==> exists k :: 0 <= k < |paths| && KindOf(policy, paths[k]).Everything?
  {
    if paths != [] {
      var n := |paths| - 1;
      FullPathsIff(policy, paths[..n]);
      assert forall k | 0 <= k < n :: paths[..n][k] == paths[k];
      if KindOf(policy, paths[n]).Everything? {
        assert FullPath(KindOf(policy, paths[n]).pattern) in FullPaths(policy, paths);
      }
    }
  }

  lemma {:induction false} UnknownIff(policy: Policy, paths: seq<string>)
    ensures Unknown(policy, paths) != [] <==> exists k :: 0 <= k < |paths| && KindOf(policy, paths[k]) == Owned({})
  {
    if paths != [] {
      var n := |paths| - 1;
      UnknownIff(policy, paths[..n]);
      assert forall k | 0 <= k < n :: paths[..n][k] == paths[k];
    }
  }

  lemma {:induction false} ComponentsIff(policy: Policy, paths: seq<string>, compiles: set<string>)
    ensures Components(policy, paths) * compiles != {} <==>
              exists k :: 0 <= k < |paths| && KindOf(policy, paths[k]).Owned? && KindOf(policy, paths[k]).owners * compiles != {}
  {
    if paths != [] {
      var n := |paths| - 1;
      ComponentsIff(policy, paths[..n], compiles);
      var last := KindOf(policy, paths[n]);
      var owners := if last.Owned? then last.owners else {};
      assert Components(policy, paths) * compiles == Components(policy, paths[..n]) * compiles + owners * compiles;
      assert forall k | 0 <= k < n :: paths[..n][k] == paths[k];
    }
  }

  /** A plan selects a leg exactly when something else forces a full run, the diff is empty, or some
      changed path needs that leg. */
  lemma PlanSelectsIff(policy: Policy, digest: string, event: EventName, source: string, base: Option<string>,
                       paths: seq<string>, reasons: set<Reason>, k: nat)
    requires Distinct(policy.legs) && k < |policy.legs|
    ensures policy.legs[k].leg in BuildPlan(policy, digest, event, source, base, paths, reasons).legs <==>
              reasons != {} || (base.Some? && paths == [])
              || exists i :: 0 <= i < |paths| && Needs(policy, paths[i], policy.legs[k])
  {
    var spec := policy.legs[k];
    SelectedIff(policy.legs, Components(policy, paths), AllReasons(policy, base, paths, reasons) != {}, k);
    FullPathsIff(policy, paths);
    UnknownIff(policy, paths);
    ComponentsIff(policy, paths, spec.compiles);
    UnclassifiedsIff(Unknown(policy, paths));
    AnyReason(policy, base, paths, reasons);
    forall i | 0 <= i < |paths|
      ensures Needs(policy, paths[i], spec) <==>
                match KindOf(policy, paths[i])
                case Everything(_) => true
                case Documentation => false
                case Owned(owners) => owners == {} || owners * spec.compiles != {}
    {
      NeedsIff(policy, paths[i], spec);
    }
  }

  lemma UnclassifiedsIff(unknown: seq<string>)
    ensures Unclassifieds(unknown) != {} <==> unknown != []
  {
    if unknown != [] {
      assert Unclassified(unknown[0]) in Unclassifieds(unknown);
    }
  }

  lemma AnyReason(policy: Policy, base: Option<string>, paths: seq<string>, reasons: set<Reason>)
    ensures AllReasons(policy, base, paths, reasons) != {} <==>
              reasons != {} || FullPaths(policy, paths) != {} || Unclassifieds(Unknown(policy, paths)) != {}
              || (base.Some? && paths == [])
  {
  }

  /** A pattern is the first of a list that stands for a path. */
  ghost predicate FirstAt(patterns: seq<string>, path: string, i: int) {
    && 0 <= i < |patterns| && Glob.Denotes(Glob.Parse(patterns[i]), path)
    && forall j | 0 <= j < i :: !Glob.Denotes(Glob.Parse(patterns[j]), path)
  }

  ghost predicate FirstAmong(patterns: seq<string>, path: string, pattern: string) {
    exists i :: FirstAt(patterns, path, i) && patterns[i] == pattern
  }

  lemma {:induction false} FirstMatchIs(patterns: seq<string>, path: string, pattern: string)
    ensures FirstMatch(patterns, path) == Some(pattern) <==> FirstAmong(patterns, path, pattern)
  {
    if patterns != [] {
      var rest := patterns[1..];
      FirstMatchIs(rest, path, pattern);
      Glob.MatchIff(Glob.Parse(patterns[0]), path);
      forall i | 0 < i < |patterns|
        ensures FirstAt(patterns, path, i) <==> !Glob.Denotes(Glob.Parse(patterns[0]), path) && FirstAt(rest, path, i - 1)
      {
        FirstLater(patterns, path, i);
      }
      if i :| FirstAt(rest, path, i) && rest[i] == pattern {
        assert FirstAt(patterns, path, i + 1) <==> !Glob.Denotes(Glob.Parse(patterns[0]), path);
      }
      assert FirstAt(patterns, path, 0) <==> Glob.Denotes(Glob.Parse(patterns[0]), path);
    }
  }

  lemma FirstLater(patterns: seq<string>, path: string, i: int)
    requires 0 < i < |patterns|
    ensures FirstAt(patterns, path, i) <==>
              !Glob.Denotes(Glob.Parse(patterns[0]), path) && FirstAt(patterns[1..], path, i - 1)
  {
  }

  /** A plan names a full path's pattern exactly when it is the first that stands for some changed path. */
  lemma {:induction false} FullPathsAre(policy: Policy, paths: seq<string>, pattern: string)
    ensures FullPath(pattern) in FullPaths(policy, paths) <==>
              exists k :: 0 <= k < |paths| && FirstAmong(policy.full, paths[k], pattern)
  {
    if paths != [] {
      var n := |paths| - 1;
      FullPathsAre(policy, paths[..n], pattern);
      FirstMatchIs(policy.full, paths[n], pattern);
      assert forall k | 0 <= k < n :: paths[..n][k] == paths[k];
    }
  }

  /** Nothing is known about a path. */
  ghost predicate IsUnknown(policy: Policy, path: string) {
    && !Among(policy.full, path) && !Among(policy.noRust, path)
    && forall i | 0 <= i < |policy.components| :: !Owns(policy.components[i], path)
  }

  lemma {:induction false} UnknownAre(policy: Policy, paths: seq<string>, path: string)
    ensures path in Unknown(policy, paths) <==> path in paths && IsUnknown(policy, path)
  {
    if paths != [] {
      var n := |paths| - 1;
      UnknownAre(policy, paths[..n], path);
      AmongIff(policy.full, paths[n]);
      AmongIff(policy.noRust, paths[n]);
      OwnedIff(policy.components, paths[n], {});
      assert paths == paths[..n] + [paths[n]];
    }
  }

  /** What a plan says of a change: the components of its paths, and why its run is full. */
  lemma PlanExplains(policy: Policy, digest: string, event: EventName, source: string, base: Option<string>,
                     paths: seq<string>, reasons: set<Reason>)
    ensures var plan := BuildPlan(policy, digest, event, source, base, paths, reasons);
            && (plan.profile == Full <==> plan.reasons != {}) && plan.profile != OtherProfile
            && reasons <= plan.reasons
            && (EmptyDiff in plan.reasons <==> EmptyDiff in reasons || (base.Some? && paths == []))
            && (forall pattern :: FullPath(pattern) in plan.reasons <==>
                  FullPath(pattern) in reasons || exists k :: 0 <= k < |paths| && FirstAmong(policy.full, paths[k], pattern))
            && (forall path :: Unclassified(path) in plan.reasons && Unclassified(path) !in reasons ==>
                  path in paths && IsUnknown(policy, path) && path in FirstTen(Unknown(policy, paths)))
            && (forall path | path in FirstTen(Unknown(policy, paths)) :: Unclassified(path) in plan.reasons)
  {
    var all := AllReasons(policy, base, paths, reasons);
    var unknown := Unknown(policy, paths);
    OnlyFullPaths(policy, paths);
    forall pattern
      ensures FullPath(pattern) in all <==>
                FullPath(pattern) in reasons || exists k :: 0 <= k < |paths| && FirstAmong(policy.full, paths[k], pattern)
    {
      FullPathsAre(policy, paths, pattern);
    }
    forall path ensures path in unknown <==> path in paths && IsUnknown(policy, path) {
      UnknownAre(policy, paths, path);
    }
    forall path ensures path in FirstTen(unknown) <==> Unclassified(path) in Unclassifieds(unknown) {
      if path in FirstTen(unknown) {
        var i :| 0 <= i < |FirstTen(unknown)| && FirstTen(unknown)[i] == path;
        assert Unclassified(unknown[i]) in Unclassifieds(unknown);
      }
    }
  }

  ghost function FirstTen(s: seq<string>): seq<string> {
    if |s| <= 10 then s else s[..10]
  }

  lemma {:induction false} OnlyFullPaths(policy: Policy, paths: seq<string>)
    ensures forall reason | reason in FullPaths(policy, paths) :: reason.FullPath?
  {
    if paths != [] {
      OnlyFullPaths(policy, paths[..|paths| - 1]);
    }
  }

  /** A plan's components are those that have a changed path which is neither a full one nor documentation. */
  lemma {:induction false} ComponentsAre(policy: Policy, paths: seq<string>, name: string)
    ensures name in Components(policy, paths) <==>
              exists k, i :: 0 <= k < |paths| && 0 <= i < |policy.components| && policy.components[i].name == name
                             && Owns(policy.components[i], paths[k]) && !Among(policy.full, paths[k]) && !Among(policy.noRust, paths[k])
  {
    if paths != [] {
      var n := |paths| - 1;
      ComponentsAre(policy, paths[..n], name);
      AmongIff(policy.full, paths[n]);
      AmongIff(policy.noRust, paths[n]);
      OwnersIff(policy.components, paths[n], name);
      assert forall k | 0 <= k < n :: paths[..n][k] == paths[k];
    }
  }

  /** Planning distributes over unions of changes: two non-empty sets of changed paths together need
      exactly the legs that one of them needs. */
  lemma PlanningDistributes(policy: Policy, digest: string, event: EventName, source: string, base: Option<string>,
                            a: seq<string>, b: seq<string>, both: seq<string>, reasons: set<Reason>, k: nat)
    requires Distinct(policy.legs) && k < |policy.legs| && a != [] && b != []
    requires forall path :: path in both <==> path in a || path in b
    ensures var leg := policy.legs[k].leg;
            leg in BuildPlan(policy, digest, event, source, base, both, reasons).legs <==>
              || leg in BuildPlan(policy, digest, event, source, base, a, reasons).legs
              || leg in BuildPlan(policy, digest, event, source, base, b, reasons).legs
  {
    PlanSelectsIff(policy, digest, event, source, base, both, reasons, k);
    PlanSelectsIff(policy, digest, event, source, base, a, reasons, k);
    PlanSelectsIff(policy, digest, event, source, base, b, reasons, k);
    assert a[0] in both;
    NeedsIn(policy, both, policy.legs[k]);
    NeedsIn(policy, a, policy.legs[k]);
    NeedsIn(policy, b, policy.legs[k]);
  }

  lemma NeedsIn(policy: Policy, paths: seq<string>, spec: Spec)
    ensures (exists i :: 0 <= i < |paths| && Needs(policy, paths[i], spec)) <==>
            (exists path :: path in paths && Needs(policy, path, spec))
  {
  }

  // The plan of a run.

  predicate Hex(c: char) {
    '0' <= c <= '9' || 'a' <= c <= 'f'
  }

  predicate Sha(s: string) {
    |s| == 40 && forall i | 0 <= i < |s| :: Hex(s[i])
  }

  predicate Zeros(s: string) {
    |s| == 40 && forall i | 0 <= i < |s| :: s[i] == '0'
  }

  /** The name of a commit: forty hexadecimal digits, in lower case. */
  ghost predicate CommitName(s: string) {
    |s| == 40 && forall i | 0 <= i < |s| :: s[i] in "0123456789abcdef"
  }

  lemma CommitNames(s: string)
    ensures Sha(s) <==> CommitName(s)
    ensures Zeros(s) <==> s == seq(40, _ => '0')
  {
  }

  /** The run's environment and its event's payload. */
  datatype Env = Env(event: EventName, sha: string)
  datatype Payload = Payload(head: string, before: string, forced: bool)

  /** What git answers: the checkout, its commit's line of parents, whether a commit is an ancestor of
      it, whether a planning input differs from a base, and the paths that do. */
  datatype Repository = Repository(
    head: string,
    parents: seq<string>,
    ancestor: string -> bool,
    planningChanged: string -> bool,
    changed: string -> seq<string>)

  function Prepare(repo: Repository, env: Env, payload: Payload, policy: Policy, digest: string): Result<Plan> {
    if !Sha(repo.head) || repo.head != env.sha then Err(NotTheCheckout)
    else match env.event
      case Schedule => Ok(BuildPlan(policy, digest, env.event, repo.head, None, [], {ByEvent(env.event)}))
      case Dispatch => Ok(BuildPlan(policy, digest, env.event, repo.head, None, [], {ByEvent(env.event)}))
      case PullRequest =>
        if |repo.parents| != 3 || repo.parents[2] != payload.head then Err(NotTheMerge)
        else Ok(Against(repo, env, policy, digest, repo.parents[1]))
      case Push =>
        if !Sha(payload.before) || !repo.ancestor(payload.before) || payload.forced || Zeros(payload.before)
        then Ok(BuildPlan(policy, digest, env.event, repo.head, None, [], {BaseUntrusted}))
        else Ok(Against(repo, env, policy, digest, payload.before))
      case Other(_) => Err(UnsupportedEvent)
  }

  function Against(repo: Repository, env: Env, policy: Policy, digest: string, base: string): Plan {
    BuildPlan(policy, digest, env.event, repo.head, Some(base), repo.changed(base),
              if repo.planningChanged(base) then {PlanningChanged} else {})
  }

  // What a prepared plan is made against.

  /** A push's base can be trusted: a commit's name, not of zeros only, an ancestor of the checkout, and the
      push was not forced. */
  ghost predicate Trusted(repo: Repository, payload: Payload) {
    CommitName(payload.before) && payload.before != seq(40, _ => '0') && repo.ancestor(payload.before) && !payload.forced
  }

  /** The commit whose difference to the checkout is the change: the first parent of a pull request's
      merge, or a push's trusted base. */
  ghost function BaseOf(repo: Repository, env: Env, payload: Payload): Option<string> {
    if env.event == PullRequest && |repo.parents| == 3 then Some(repo.parents[1])
    else if env.event == Push && Trusted(repo, payload) then Some(payload.before)
    else None
  }

  /** A plan is prepared exactly when the checkout is the run's commit, and for a pull request when that is
      the merge of its head. */
  lemma PreparesIff(repo: Repository, env: Env, payload: Payload, policy: Policy, digest: string)
    ensures var r := Prepare(repo, env, payload, policy, digest);
            && (r == Err(NotTheCheckout) <==> !CommitName(repo.head) || repo.head != env.sha)
            && (r == Err(UnsupportedEvent) <==> CommitName(repo.head) && repo.head == env.sha && env.event.Other?)
            && (r == Err(NotTheMerge) <==>
                && CommitName(repo.head) && repo.head == env.sha && env.event == PullRequest
                && !(|repo.parents| == 3 && repo.parents[2] == payload.head))
            && (r.Ok? ==>
                && r.value.base == BaseOf(repo, env, payload) && r.value.source == env.sha
                && r.value.event == env.event && r.value.digest == digest)
  {
    CommitNames(repo.head);
    CommitNames(payload.before);
  }

  /** Why a prepared run is full, apart from its paths: its event has no base, a push's base cannot be
      trusted, or a planning input differs from the base. */
  lemma PreparedExplains(repo: Repository, env: Env, payload: Payload, policy: Policy, digest: string)
    requires Prepare(repo, env, payload, policy, digest).Ok?
    ensures var plan, base := Prepare(repo, env, payload, policy, digest).value, BaseOf(repo, env, payload);
            && (forall event :: ByEvent(event) in plan.reasons <==> event == env.event && (event == Schedule || event == Dispatch))
            && (BaseUntrusted in plan.reasons <==> env.event == Push && !Trusted(repo, payload))
            && (PlanningChanged in plan.reasons <==> base.Some? && repo.planningChanged(base.value))
            && (EmptyDiff in plan.reasons <==> base.Some? && repo.changed(base.value) == [])
  {
    CommitNames(payload.before);
    var base := BaseOf(repo, env, payload);
    var paths := if base.Some? then repo.changed(base.value) else [];
    OnlyFullPaths(policy, paths);
    assert FullPaths(policy, []) == {} && Unclassifieds(Unknown(policy, [])) == {};
  }

  /** What a run demands of a leg: without a base, that it runs; with one, that it runs when a planning
      input changed, nothing changed, or a changed path needs it. */
  ghost predicate Demands(repo: Repository, env: Env, payload: Payload, policy: Policy, spec: Spec) {
    match BaseOf(repo, env, payload)
    case None => true
    case Some(base) =>
      repo.planningChanged(base) || repo.changed(base) == [] || exists path :: path in repo.changed(base) && Needs(policy, path, spec)
  }

  /** A prepared plan selects exactly the legs its run demands. */
  lemma PreparedSelectsIff(repo: Repository, env: Env, payload: Payload, policy: Policy, digest: string, k: nat)
    requires Distinct(policy.legs) && k < |policy.legs| && Prepare(repo, env, payload, policy, digest).Ok?
    ensures policy.legs[k].leg in Prepare(repo, env, payload, policy, digest).value.legs <==>
              Demands(repo, env, payload, policy, policy.legs[k])
  {
    CommitNames(payload.before);
    var base := BaseOf(repo, env, payload);
    if base.None? {
      PlanSelectsIff(policy, digest, env.event, repo.head, None, [], {ByEvent(env.event)}, k);
      PlanSelectsIff(policy, digest, env.event, repo.head, None, [], {BaseUntrusted}, k);
    } else {
      AgainstSelectsIff(repo, env, policy, digest, base.value, k);
    }
  }

  lemma AgainstSelectsIff(repo: Repository, env: Env, policy: Policy, digest: string, base: string, k: nat)
    requires Distinct(policy.legs) && k < |policy.legs|
    ensures policy.legs[k].leg in Against(repo, env, policy, digest, base).legs <==>
              || repo.planningChanged(base) || repo.changed(base) == []
              || exists path :: path in repo.changed(base) && Needs(policy, path, policy.legs[k])
  {
    var reasons := if repo.planningChanged(base) then {PlanningChanged} else {};
    PlanSelectsIff(policy, digest, env.event, repo.head, Some(base), repo.changed(base), reasons, k);
    NeedsIn(policy, repo.changed(base), policy.legs[k]);
  }
}
