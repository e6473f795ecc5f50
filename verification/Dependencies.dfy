/**
  The product-graph inspector of scripts/upstream_dependencies.py: a breadth-first search that marks
  a package when it is taken off the queue and carries the trail it was reached by.

  A package's source is its registry or git source, or its path in the repository. Both traversals of
  the script are the same search; only what they make of a visited package differs.
*/
module Dependencies {

  type Id = nat

  datatype Package = Package(name: string, version: string, source: string)

  datatype Kind = Unset | Normal | Build | Development | OtherKind(name: string)

  datatype DepKind = DepKind(kind: Kind, target: string)

  datatype Dep = Dep(pkg: Id, kinds: seq<DepKind>)

  datatype Metadata = Metadata(packages: map<Id, Package>, nodes: map<Id, seq<Dep>>)

  predicate IsProduct(k: DepKind) {
    k.kind.Unset? || k.kind.Normal? || k.kind.Build?
  }

  /** The packages a list of dependencies pulls into the product, once per product kind. */
  function ChildrenOf(deps: seq<Dep>): seq<Id> {
    if deps == [] then [] else ChildrenOf(deps[..|deps| - 1]) + Repeats(deps[|deps| - 1].pkg, deps[|deps| - 1].kinds)
  }

  function Repeats(pkg: Id, kinds: seq<DepKind>): seq<Id> {
    if kinds == [] then []
    else Repeats(pkg, kinds[..|kinds| - 1]) + if IsProduct(kinds[|kinds| - 1]) then [pkg] else []
  }

  function Children(g: Metadata, pid: Id): seq<Id> {
    if pid in g.nodes then ChildrenOf(g.nodes[pid]) else []
  }

  predicate Known(g: Metadata, pid: Id) {
    pid in g.nodes && pid in g.packages
  }

  /** Every package this one pulls in is resolved. */
  predicate Resolved(g: Metadata, pid: Id) {
    forall child | child in Children(g, pid) :: Known(g, child)
  }

  // ---------------------------------------------------------------- trails

  /** A path of product edges from `root` to `pid`. */
  ghost predicate IsTrail(g: Metadata, root: Id, pid: Id, t: seq<Id>) {
    && |t| > 0 && t[0] == root && t[|t| - 1] == pid
    && forall i | 0 <= i < |t| - 1 :: t[i + 1] in Children(g, t[i])
  }

  ghost predicate Reaches(g: Metadata, root: Id, pid: Id) {
    exists t :: IsTrail(g, root, pid, t)
  }

  ghost predicate Shortest(g: Metadata, root: Id, pid: Id, t: seq<Id>) {
    IsTrail(g, root, pid, t) && forall u | IsTrail(g, root, pid, u) :: |t| <= |u|
  }

  lemma TrailGrows(g: Metadata, root: Id, pid: Id, t: seq<Id>, child: Id)
    requires IsTrail(g, root, pid, t) && child in Children(g, pid)
    ensures IsTrail(g, root, child, t + [child])
  {
  }

  lemma TrailPrefix(g: Metadata, root: Id, pid: Id, t: seq<Id>, n: nat)
    requires IsTrail(g, root, pid, t) && n < |t|
    ensures IsTrail(g, root, t[n], t[..n + 1])
  {
  }

  // ---------------------------------------------------------------- the search

  datatype Entry = Entry(pid: Id, trail: seq<Id>)

  function Entries(children: seq<Id>, trail: seq<Id>): (entries: seq<Entry>)
    ensures |entries| == |children|
  {
    seq(|children|, i requires 0 <= i < |children| => Entry(children[i], trail + [children[i]]))
  }

  /** Some entry leads to `pid` by a trail of this length. */
  ghost predicate Queued(queue: seq<Entry>, pid: Id, length: nat) {
    exists i :: 0 <= i < |queue| && queue[i].pid == pid && |queue[i].trail| == length
  }

  /** What the queue holds: real trails, the shorter ones first, no two lengths more than one apart. */
  ghost predicate QueueInv(g: Metadata, root: Id, queue: seq<Entry>) {
    && (forall i | 0 <= i < |queue| :: IsTrail(g, root, queue[i].pid, queue[i].trail))
    && forall i, j | 0 <= i <= j < |queue| ::
         |queue[i].trail| <= |queue[j].trail| <= |queue[i].trail| + 1
  }

  /** A package was seen by a shortest trail, and everything it pulls in is resolved. */
  ghost predicate SeenBy(g: Metadata, root: Id, v: Id, t: seq<Id>) {
    Shortest(g, root, v, t) && Known(g, v) && Resolved(g, v)
  }

  /** What the packages seen pull in is seen, or queued one step further. */
  ghost predicate Frontier(g: Metadata, queue: seq<Entry>, seen: map<Id, seq<Id>>) {
    forall u, w | u in seen && w in Children(g, u) && w !in seen :: Queued(queue, w, |seen[u]| + 1)
  }

  /** What is known of the packages seen, each with the trail it was seen by. */
  ghost predicate SeenInv(g: Metadata, root: Id, queue: seq<Entry>, seen: map<Id, seq<Id>>) {
    && (forall v | v in seen :: SeenBy(g, root, v, seen[v]))
    && Frontier(g, queue, seen)
    && (root in seen || Queued(queue, root, 1))
  }

  /** Some step of a trail leads from a seen package to one not seen. */
  lemma {:induction false} CrossesOver(t: seq<Id>, seen: map<Id, seq<Id>>) returns (k: nat)
    requires |t| > 0 && t[0] in seen && t[|t| - 1] !in seen
    ensures k < |t| - 1 && t[k] in seen && t[k + 1] !in seen
    decreases |t|
  {
    if t[|t| - 2] in seen {
      return |t| - 2;
    }
    k := CrossesOver(t[..|t| - 1], seen);
  }

  /** The first entry not seen yet comes by a shortest trail. */
  lemma HeadIsShortest(g: Metadata, root: Id, queue: seq<Entry>, seen: map<Id, seq<Id>>)
    requires QueueInv(g, root, queue) && SeenInv(g, root, queue, seen)
    requires queue != [] && queue[0].pid !in seen
    ensures Shortest(g, root, queue[0].pid, queue[0].trail)
  {
    var head := queue[0];
    forall t | IsTrail(g, root, head.pid, t) ensures |head.trail| <= |t| {
      if root in seen {
        var k := CrossesOver(t, seen);
        TrailPrefix(g, root, head.pid, t, k);
        assert |seen[t[k]]| <= |t[..k + 1]|;
        assert Queued(queue, t[k + 1], |seen[t[k]]| + 1);
        var i :| 0 <= i < |queue| && queue[i].pid == t[k + 1] && |queue[i].trail| == |seen[t[k]]| + 1;
        assert |queue[0].trail| <= |queue[i].trail|;
      } else {
        var i :| 0 <= i < |queue| && queue[i].pid == root && |queue[i].trail| == 1;
        assert |queue[0].trail| <= |queue[i].trail|;
      }
    }
  }

  lemma QueuedRest(queue: seq<Entry>, more: seq<Entry>, pid: Id, length: nat)
    requires queue != [] && Queued(queue, pid, length) && queue[0].pid != pid
    ensures Queued(queue[1..] + more, pid, length)
  {
    var i :| 0 <= i < |queue| && queue[i].pid == pid && |queue[i].trail| == length;
    assert (queue[1..] + more)[i - 1] == queue[i];
  }

  /** Skipping a package already seen. */
  lemma SkipKeeps(g: Metadata, root: Id, queue: seq<Entry>, seen: map<Id, seq<Id>>)
    requires QueueInv(g, root, queue) && SeenInv(g, root, queue, seen)
    requires queue != [] && queue[0].pid in seen
    ensures QueueInv(g, root, queue[1..]) && SeenInv(g, root, queue[1..], seen)
  {
    assert queue[1..] + [] == queue[1..];
    forall u, w | u in seen && w in Children(g, u) && w !in seen ensures Queued(queue[1..], w, |seen[u]| + 1) {
      QueuedRest(queue, [], w, |seen[u]| + 1);
    }
    if root !in seen {
      QueuedRest(queue, [], root, 1);
    }
  }

  lemma VisitKeepsQueue(g: Metadata, root: Id, queue: seq<Entry>)
    requires QueueInv(g, root, queue) && queue != []
    ensures QueueInv(g, root, queue[1..] + Entries(Children(g, queue[0].pid), queue[0].trail))
  {
    var head := queue[0];
    var children := Children(g, head.pid);
    var more := Entries(children, head.trail);
    forall i | 0 <= i < |more| ensures IsTrail(g, root, more[i].pid, more[i].trail) {
      TrailGrows(g, root, head.pid, head.trail, children[i]);
    }
  }

  /** What a seen package pulls in stays seen or queued when the first package queued is visited. */
  lemma StaysQueued(g: Metadata, root: Id, queue: seq<Entry>, seen: map<Id, seq<Id>>, u: Id, w: Id)
    requires SeenInv(g, root, queue, seen) && queue != [] && w in Children(g, u)
    requires u == queue[0].pid || u in seen
    requires w !in seen && w != queue[0].pid
    ensures var head := queue[0];
            var length := if u == head.pid then |head.trail| + 1 else |seen[u]| + 1;
            Queued(queue[1..] + Entries(Children(g, head.pid), head.trail), w, length)
  {
    var head := queue[0];
    if u == head.pid {
      ChildIsQueued(queue[1..], Children(g, head.pid), head.trail, w);
    } else {
      QueuedRest(queue, Entries(Children(g, head.pid), head.trail), w, |seen[u]| + 1);
    }
  }

  /** Before anything is seen, the root is first in the queue. */
  lemma RootIsFirst(g: Metadata, root: Id, queue: seq<Entry>, seen: map<Id, seq<Id>>)
    requires QueueInv(g, root, queue) && SeenInv(g, root, queue, seen) && queue != []
    ensures root in seen || queue[0].pid == root
  {
  }

  lemma VisitKeepsFrontier(g: Metadata, root: Id, queue: seq<Entry>, seen: map<Id, seq<Id>>)
    requires SeenInv(g, root, queue, seen) && queue != [] && queue[0].pid !in seen
    ensures Frontier(g, queue[1..] + Entries(Children(g, queue[0].pid), queue[0].trail),
                     seen[queue[0].pid := queue[0].trail])
  {
    var head := queue[0];
    var next := queue[1..] + Entries(Children(g, head.pid), head.trail);
    var seen' := seen[head.pid := head.trail];
    forall u, w | u in seen' && w in Children(g, u) && w !in seen' ensures Queued(next, w, |seen'[u]| + 1) {
      StaysQueued(g, root, queue, seen, u, w);
    }
  }

  /** Visiting the first package queued. */
  lemma VisitKeepsSeen(g: Metadata, root: Id, queue: seq<Entry>, seen: map<Id, seq<Id>>)
    requires QueueInv(g, root, queue) && SeenInv(g, root, queue, seen)
    requires queue != [] && queue[0].pid !in seen && Known(g, queue[0].pid) && Resolved(g, queue[0].pid)
    ensures SeenInv(g, root, queue[1..] + Entries(Children(g, queue[0].pid), queue[0].trail),
                    seen[queue[0].pid := queue[0].trail])
  {
    HeadIsShortest(g, root, queue, seen);
    RootIsFirst(g, root, queue, seen);
    VisitKeepsFrontier(g, root, queue, seen);
    assert SeenBy(g, root, queue[0].pid, queue[0].trail);
  }

  lemma ChildIsQueued(before: seq<Entry>, children: seq<Id>, trail: seq<Id>, w: Id)
    requires w in children
    ensures Queued(before + Entries(children, trail), w, |trail| + 1)
  {
    var i :| 0 <= i < |children| && children[i] == w;
    var all := before + Entries(children, trail);
    assert all[|before| + i] == Entries(children, trail)[i];
  }

  /** When nothing is queued, everything along a trail has been seen. */
  lemma {:induction false} SeenAlong(g: Metadata, root: Id, seen: map<Id, seq<Id>>, v: Id, t: seq<Id>, k: nat)
    requires SeenInv(g, root, [], seen) && IsTrail(g, root, v, t) && k < |t|
    ensures t[k] in seen
  {
    if k > 0 {
      SeenAlong(g, root, seen, v, t, k - 1);
      assert t[k - 1 + 1] in Children(g, t[k - 1]);
    }
  }

  lemma EverythingSeen(g: Metadata, root: Id, seen: map<Id, seq<Id>>, v: Id)
    requires SeenInv(g, root, [], seen) && Reaches(g, root, v)
    ensures v in seen
  {
    var t :| IsTrail(g, root, v, t);
    SeenAlong(g, root, seen, v, t, |t| - 1);
  }

  /** The loops over a package's dependencies: what they append to the queue, or that one is not
      resolved. */
  method Expand(g: Metadata, pid: Id) returns (ok: bool, children: seq<Id>)
    requires pid in g.nodes
    ensures ok <==> Resolved(g, pid)
    ensures ok ==> children == Children(g, pid)
  {
    var deps := g.nodes[pid];
    children := [];
    for n := 0 to |deps|
      invariant children == ChildrenOf(deps[..n])
      invariant forall child | child in children :: Known(g, child)
    {
      var dep := deps[n];
      ghost var before := children;
      assert deps[..n + 1][..n] == deps[..n];
      for k := 0 to |dep.kinds|
        invariant children == before + Repeats(dep.pkg, dep.kinds[..k])
        invariant forall child | child in children :: Known(g, child)
      {
        assert dep.kinds[..k + 1][..k] == dep.kinds[..k];
        if IsProduct(dep.kinds[k]) {
          ChildListed(deps, n, k);
          if !Known(g, dep.pkg) {
            return false, [];
          }
          children := children + [dep.pkg];
        }
      }
      assert dep.kinds[..|dep.kinds|] == dep.kinds;
    }
    assert deps[..|deps|] == deps;
    return true, children;
  }

  lemma {:induction false} RepeatListed(pkg: Id, kinds: seq<DepKind>, k: nat)
    requires k < |kinds| && IsProduct(kinds[k])
    ensures pkg in Repeats(pkg, kinds)
  {
    if k < |kinds| - 1 {
      RepeatListed(pkg, kinds[..|kinds| - 1], k);
    }
  }

  lemma {:induction false} ChildListed(deps: seq<Dep>, n: nat, k: nat)
    requires n < |deps| && k < |deps[n].kinds| && IsProduct(deps[n].kinds[k])
    ensures deps[n].pkg in ChildrenOf(deps)
    decreases |deps|
  {
    if n < |deps| - 1 {
      ChildListed(deps[..|deps| - 1], n, k);
    } else {
      RepeatListed(deps[n].pkg, deps[n].kinds, k);
    }
  }

  /** One traversal from a root. It ends on every graph, finds exactly what the root reaches, each by
      a shortest trail, and fails exactly when something reached is not resolved. */
  method Traverse(g: Metadata, root: Id) returns (ok: bool, seen: map<Id, seq<Id>>)
    requires Known(g, root)
    ensures ok <==> forall v | Reaches(g, root, v) :: Resolved(g, v)
    ensures ok ==> forall v :: v in seen <==> Reaches(g, root, v)
    ensures ok ==> forall v | v in seen :: Shortest(g, root, v, seen[v]) && Known(g, v)
  {
    var queue := [Entry(root, [root])];
    seen := map[];
    TraversalStarts(g, root);
    while queue != []
      invariant QueueInv(g, root, queue) && SeenInv(g, root, queue, seen)
      invariant forall i | 0 <= i < |queue| :: Known(g, queue[i].pid)
      decreases g.nodes.Keys - seen.Keys, |queue|
    {
      var head := queue[0];
      if head.pid in seen {
        SkipKeeps(g, root, queue, seen);
        queue := queue[1..];
        continue;
      }
      var good, children := Expand(g, head.pid);
      if !good {
        assert Reaches(g, root, head.pid);
        return false, map[];
      }
      VisitKeepsQueue(g, root, queue);
      VisitKeepsSeen(g, root, queue, seen);
      ghost var before := g.nodes.Keys - seen.Keys;
      seen := seen[head.pid := head.trail];
      assert head.pid in before && head.pid !in g.nodes.Keys - seen.Keys;
      queue := queue[1..] + Entries(children, head.trail);
    }
    TraversalEnds(g, root, seen);
    return true, seen;
  }

  lemma TraversalStarts(g: Metadata, root: Id)
    requires Known(g, root)
    ensures var queue := [Entry(root, [root])]; QueueInv(g, root, queue) && SeenInv(g, root, queue, map[])
  {
    var queue := [Entry(root, [root])];
    assert IsTrail(g, root, root, [root]);
    assert queue[0].pid == root && |queue[0].trail| == 1;
  }

  lemma TraversalEnds(g: Metadata, root: Id, seen: map<Id, seq<Id>>)
    requires SeenInv(g, root, [], seen)
    ensures forall v :: v in seen <==> Reaches(g, root, v)
    ensures forall v | v in seen :: Shortest(g, root, v, seen[v]) && Known(g, v) && Resolved(g, v)
  {
    forall v | Reaches(g, root, v) ensures v in seen {
      EverythingSeen(g, root, seen, v);
    }
    forall v | v in seen ensures Reaches(g, root, v) {
      assert SeenBy(g, root, v, seen[v]);
      assert IsTrail(g, root, v, seen[v]);
    }
  }

  // ---------------------------------------------------------------- what is reported

  datatype Option<+T> = None | Some(value: T)

  datatype Problem = Banned | NotThePin | OutsideProductSet | NotTheGitlink | OutsideTheFeature | BroughtIn

  /** A trail from the root it starts at to the package it ends at, and what is wrong there. */
  datatype Violation = Violation(trail: seq<Id>, problem: Problem)

  datatype Edge = Edge(from: Package, till: Package, kind: Kind, target: string)

  datatype Report = Report(packages: set<Package>, edges: set<Edge>, violations: set<Violation>)

  datatype Result = Ok(report: Report) | MissingRoot | Unresolved

  /** What the inspector holds a graph against; `devguard` says whether DevGuard may be in it. */
  datatype Policy = Policy(forbidden: set<string>, runnerForbidden: set<string>, devguardProduct: set<string>,
                           devguardSource: string, codexPath: string, devguard: bool)

  /** The repository's own policy, with DevGuard's pinned source given. */
  function Reviewed(devguard: bool, pin: string): Policy {
    Policy({"codex-core", "codex-exec", "codex-app-server", "codex-login"},
           {"codespace-linux-sandbox", "codex-linux-sandbox"},
           {"devguard-client", "devguard-contract"}, pin, "path:third_party/codex/", devguard)
  }

  predicate StartsWith(s: string, prefix: string) { prefix <= s }

  predicate IsDevGuard(p: Package) { StartsWith(p.name, "devguard-") }

  predicate IsOurs(p: Package) { StartsWith(p.name, "codex-") || StartsWith(p.name, "codespace-") }

  function BannedFrom(policy: Policy, root: Package): set<string> {
    policy.forbidden + if root.name == "codespace-runner" then policy.runnerForbidden else {}
  }

  function IdentityProblem(p: Package, policy: Policy): Option<Problem> {
    if IsDevGuard(p) && p.source != policy.devguardSource then Some(NotThePin)
    else if IsDevGuard(p) && p.name !in policy.devguardProduct then Some(OutsideProductSet)
    else if StartsWith(p.name, "codex-") && !StartsWith(p.source, policy.codexPath) then Some(NotTheGitlink)
    else if !policy.devguard && (p.name == "codespace-devguard" || IsDevGuard(p)) then Some(OutsideTheFeature)
    else None
  }

  ghost predicate Reachable(g: Metadata, roots: seq<Id>, v: Id) {
    exists i :: 0 <= i < |roots| && Reaches(g, roots[i], v)
  }

  /** What the report must name: a package a root reaches that is banned from it or is not what it
      claims to be, or one of ours that a reached DevGuard crate reaches. */
  ghost predicate Wrong(g: Metadata, roots: seq<Id>, policy: Policy, root: Id, v: Id, problem: Problem) {
    && root in g.packages && v in g.packages && Reaches(g, root, v)
    && match problem
       case Banned => root in roots && g.packages[v].name in BannedFrom(policy, g.packages[root])
       case BroughtIn => Reachable(g, roots, root) && IsDevGuard(g.packages[root]) && IsOurs(g.packages[v])
       case _ => root in roots && IdentityProblem(g.packages[v], policy) == Some(problem)
  }

  function PackagesOf(g: Metadata, seen: map<Id, seq<Id>>): set<Package> {
    set v | v in seen && v in g.packages :: g.packages[v]
  }

  /** The product edges that leave a package. */
  function EdgesFrom(g: Metadata, pid: Id): set<Edge> {
    if !Known(g, pid) then {}
    else
      set i, k | 0 <= i < |g.nodes[pid]| && 0 <= k < |g.nodes[pid][i].kinds|
                 && IsProduct(g.nodes[pid][i].kinds[k]) && g.nodes[pid][i].pkg in g.packages ::
        var kind := g.nodes[pid][i].kinds[k];
        Edge(g.packages[pid], g.packages[g.nodes[pid][i].pkg],
             if kind.kind.Unset? then Normal else kind.kind, kind.target)
  }

  function EdgesOf(g: Metadata, seen: map<Id, seq<Id>>): set<Edge> {
    set v, e | v in seen && e in EdgesFrom(g, v) :: e
  }

  /** What the first traversal reports of the packages it saw, by the trails it saw them by. */
  function RootViolations(g: Metadata, root: Package, policy: Policy, seen: map<Id, seq<Id>>): set<Violation> {
    BannedIn(g, policy, root, seen) + Misidentified(g, policy, seen)
  }

  function BannedIn(g: Metadata, policy: Policy, root: Package, seen: map<Id, seq<Id>>): set<Violation> {
    set v | v in seen && v in g.packages && g.packages[v].name in BannedFrom(policy, root) :: Violation(seen[v], Banned)
  }

  function Misidentified(g: Metadata, policy: Policy, seen: map<Id, seq<Id>>): set<Violation> {
    set v | v in seen && v in g.packages && IdentityProblem(g.packages[v], policy).Some? ::
      Violation(seen[v], IdentityProblem(g.packages[v], policy).value)
  }

  function BroughtInBy(g: Metadata, seen: map<Id, seq<Id>>): set<Violation> {
    set v | v in seen && v in g.packages && IsOurs(g.packages[v]) :: Violation(seen[v], BroughtIn)
  }

  /** Every violation names something wrong by a shortest trail to it. */
  ghost predicate Sound(g: Metadata, roots: seq<Id>, policy: Policy, violations: set<Violation>) {
    forall x | x in violations ::
      && |x.trail| > 0 && Shortest(g, x.trail[0], x.trail[|x.trail| - 1], x.trail)
      && Wrong(g, roots, policy, x.trail[0], x.trail[|x.trail| - 1], x.problem)
  }

  ghost predicate Named(g: Metadata, root: Id, v: Id, problem: Problem, violations: set<Violation>) {
    exists x :: x in violations && x.problem == problem && Shortest(g, root, v, x.trail)
  }

  /** What a complete traversal from a root found. */
  ghost predicate Found(g: Metadata, root: Id, seen: map<Id, seq<Id>>) {
    && Known(g, root)
    && (forall v :: v in seen <==> Reaches(g, root, v))
    && forall v | v in seen :: Shortest(g, root, v, seen[v]) && Known(g, v)
  }

  /** A seen package is wrong by its trail when it is wrong by its root. */
  lemma SeenIsSound(g: Metadata, roots: seq<Id>, policy: Policy, root: Id, seen: map<Id, seq<Id>>, v: Id, x: Violation)
    requires Found(g, root, seen) && v in seen && x.trail == seen[v] && Wrong(g, roots, policy, root, v, x.problem)
    ensures Sound(g, roots, policy, {x})
  {
    assert Shortest(g, root, v, seen[v]);
  }

  lemma RootViolationsSound(g: Metadata, roots: seq<Id>, policy: Policy, root: Id, seen: map<Id, seq<Id>>)
    requires root in roots && Found(g, root, seen)
    ensures Sound(g, roots, policy, RootViolations(g, g.packages[root], policy, seen))
  {
    forall x | x in RootViolations(g, g.packages[root], policy, seen) ensures Sound(g, roots, policy, {x}) {
      if x in BannedIn(g, policy, g.packages[root], seen) {
        var v :| v in seen && v in g.packages && g.packages[v].name in BannedFrom(policy, g.packages[root])
                 && x == Violation(seen[v], Banned);
        SeenIsSound(g, roots, policy, root, seen, v, x);
      } else {
        var v :| v in seen && v in g.packages && IdentityProblem(g.packages[v], policy).Some?
                 && x == Violation(seen[v], IdentityProblem(g.packages[v], policy).value);
        SeenIsSound(g, roots, policy, root, seen, v, x);
      }
      assert x in {x};
    }
    OneByOne(g, roots, policy, RootViolations(g, g.packages[root], policy, seen));
  }

  lemma OneByOne(g: Metadata, roots: seq<Id>, policy: Policy, violations: set<Violation>)
    requires forall x | x in violations :: Sound(g, roots, policy, {x})
    ensures Sound(g, roots, policy, violations)
  {
  }

  lemma RootViolationsNamed(g: Metadata, roots: seq<Id>, policy: Policy, root: Id, seen: map<Id, seq<Id>>,
                            v: Id, problem: Problem)
    requires root in roots && Found(g, root, seen)
    requires !problem.BroughtIn? && Wrong(g, roots, policy, root, v, problem)
    ensures Named(g, root, v, problem, RootViolations(g, g.packages[root], policy, seen))
  {
    assert v in seen && Shortest(g, root, v, seen[v]);
    var x := Violation(seen[v], problem);
    assert x in RootViolations(g, g.packages[root], policy, seen);
  }

  lemma BroughtInSound(g: Metadata, roots: seq<Id>, policy: Policy, start: Id, seen: map<Id, seq<Id>>)
    requires Found(g, start, seen) && Reachable(g, roots, start) && IsDevGuard(g.packages[start])
    ensures Sound(g, roots, policy, BroughtInBy(g, seen))
  {
  }

  lemma BroughtInNamed(g: Metadata, roots: seq<Id>, policy: Policy, start: Id, seen: map<Id, seq<Id>>, v: Id)
    requires Found(g, start, seen) && Wrong(g, roots, policy, start, v, BroughtIn)
    ensures Named(g, start, v, BroughtIn, BroughtInBy(g, seen))
  {
    assert v in seen && Shortest(g, start, v, seen[v]);
    var x := Violation(seen[v], BroughtIn);
    assert x in BroughtInBy(g, seen);
  }

  lemma {:induction false} ReachesOn(g: Metadata, root: Id, v: Id, w: Id)
    requires Reaches(g, root, v) && Reaches(g, v, w)
    ensures Reaches(g, root, w)
  {
    var t :| IsTrail(g, root, v, t);
    var u :| IsTrail(g, v, w, u);
    var all := t + u[1..];
    forall i | 0 <= i < |all| - 1 ensures all[i + 1] in Children(g, all[i]) {
      if i >= |t| - 1 {
        var k := i - |t| + 1;
        assert all[i] == u[k] && all[i + 1] == u[k + 1];
      }
    }
    assert IsTrail(g, root, w, all);
  }

  ghost predicate AllResolved(g: Metadata, roots: seq<Id>) {
    forall v | Reachable(g, roots, v) :: Resolved(g, v)
  }

  /** What the first `n` roots reach, and what is listed of it. */
  ghost predicate Lists(g: Metadata, roots: seq<Id>, n: nat, report: Report, reached: set<Id>)
    requires n <= |roots|
  {
    && (forall v :: v in reached <==> Reachable(g, roots[..n], v)) && (forall v | v in reached :: Known(g, v))
    && report.packages == (set v | v in reached && v in g.packages :: g.packages[v])
    && report.edges == (set v, e | v in reached && e in EdgesFrom(g, v) :: e)
  }

  /** Everything wrong by one of the first `n` roots is named, apart from what DevGuard brings in. */
  ghost predicate RootsNamed(g: Metadata, roots: seq<Id>, policy: Policy, n: nat, violations: set<Violation>)
    requires n <= |roots|
  {
    forall i, v, problem: Problem | 0 <= i < n && !problem.BroughtIn? && Wrong(g, roots, policy, roots[i], v, problem) ::
      Named(g, roots[i], v, problem, violations)
  }

  lemma NamedStays(g: Metadata, root: Id, v: Id, problem: Problem, some: set<Violation>, more: set<Violation>)
    requires Named(g, root, v, problem, some) && some <= more
    ensures Named(g, root, v, problem, more)
  {
  }

  lemma ReachableOneMore(g: Metadata, roots: seq<Id>, n: nat, v: Id)
    requires n < |roots|
    ensures Reachable(g, roots[..n + 1], v) <==> Reachable(g, roots[..n], v) || Reaches(g, roots[n], v)
  {
  }

  /** One root more: its traversal is added to the report. */
  function WithRoot(g: Metadata, root: Package, policy: Policy, report: Report, seen: map<Id, seq<Id>>): Report {
    Report(report.packages + PackagesOf(g, seen), report.edges + EdgesOf(g, seen),
           report.violations + RootViolations(g, root, policy, seen))
  }

  lemma RootKeepsLists(g: Metadata, roots: seq<Id>, policy: Policy, n: nat, report: Report, reached: set<Id>,
                       seen: map<Id, seq<Id>>)
    requires n < |roots| && Lists(g, roots, n, report, reached) && Found(g, roots[n], seen)
    ensures Lists(g, roots, n + 1, WithRoot(g, g.packages[roots[n]], policy, report, seen), reached + seen.Keys)
  {
    var next, all := WithRoot(g, g.packages[roots[n]], policy, report, seen), reached + seen.Keys;
    forall v ensures v in all <==> Reachable(g, roots[..n + 1], v) {
      ReachableOneMore(g, roots, n, v);
    }
    assert next.packages == set v | v in all && v in g.packages :: g.packages[v];
    assert next.edges == set v, e | v in all && e in EdgesFrom(g, v) :: e;
  }

  lemma RootKeepsNamed(g: Metadata, roots: seq<Id>, policy: Policy, n: nat, violations: set<Violation>,
                       seen: map<Id, seq<Id>>)
    requires n < |roots| && RootsNamed(g, roots, policy, n, violations) && Found(g, roots[n], seen)
    ensures RootsNamed(g, roots, policy, n + 1,
                       violations + RootViolations(g, g.packages[roots[n]], policy, seen))
  {
    var mine := RootViolations(g, g.packages[roots[n]], policy, seen);
    forall i, v, problem: Problem | 0 <= i < n + 1 && !problem.BroughtIn? && Wrong(g, roots, policy, roots[i], v, problem)
      ensures Named(g, roots[i], v, problem, violations + mine)
    {
      if i == n {
        RootViolationsNamed(g, roots, policy, roots[n], seen, v, problem);
        NamedStays(g, roots[i], v, problem, mine, violations + mine);
      } else {
        NamedStays(g, roots[i], v, problem, violations, violations + mine);
      }
    }
  }

  /** The whole report: the packages and product edges the roots reach, and every violation. */
  ghost predicate Complete(g: Metadata, roots: seq<Id>, policy: Policy, report: Report) {
    && (forall p :: p in report.packages <==>
                    exists v :: Reachable(g, roots, v) && v in g.packages && g.packages[v] == p)
    && (forall e :: e in report.edges <==> exists v :: Reachable(g, roots, v) && e in EdgesFrom(g, v))
    && Sound(g, roots, policy, report.violations)
    && forall root, v, problem | Wrong(g, roots, policy, root, v, problem) ::
         Named(g, root, v, problem, report.violations)
  }

  /** The first loop: a traversal from every root. */
  method FromRoots(g: Metadata, roots: seq<Id>, policy: Policy) returns (ok: bool, report: Report, reached: set<Id>)
    requires forall i | 0 <= i < |roots| :: Known(g, roots[i])
    ensures ok <==> AllResolved(g, roots)
    ensures ok ==> Lists(g, roots, |roots|, report, reached)
    ensures ok ==> Sound(g, roots, policy, report.violations)
                   && RootsNamed(g, roots, policy, |roots|, report.violations)
  {
    report, reached := Report({}, {}, {}), {};
    for n := 0 to |roots|
      invariant Lists(g, roots, n, report, reached)
      invariant Sound(g, roots, policy, report.violations) && RootsNamed(g, roots, policy, n, report.violations)
      invariant forall v | v in reached :: Resolved(g, v)
    {
      var good, seen := Traverse(g, roots[n]);
      if !good {
        ghost var v :| Reaches(g, roots[n], v) && !Resolved(g, v);
        assert Reachable(g, roots, v);
        return false, report, reached;
      }
      assert Found(g, roots[n], seen);
      RootKeepsLists(g, roots, policy, n, report, reached, seen);
      RootViolationsSound(g, roots, policy, roots[n], seen);
      RootKeepsNamed(g, roots, policy, n, report.violations, seen);
      report := WithRoot(g, g.packages[roots[n]], policy, report, seen);
      reached := reached + seen.Keys;
    }
    assert roots[..|roots|] == roots;
    return true, report, reached;
  }

  /** Everything a reached DevGuard crate outside `left` brings in is named. */
  ghost predicate BroughtInAll(g: Metadata, roots: seq<Id>, policy: Policy, left: set<Id>, violations: set<Violation>) {
    forall start, v | start !in left && Wrong(g, roots, policy, start, v, BroughtIn) ::
      Named(g, start, v, BroughtIn, violations)
  }

  /** The second loop: a traversal from every DevGuard crate reached. */
  method FromDevGuard(g: Metadata, roots: seq<Id>, policy: Policy, reached: set<Id>) returns (violations: set<Violation>)
    requires AllResolved(g, roots)
    requires forall v :: v in reached <==> Reachable(g, roots, v)
    requires forall v | v in reached :: Known(g, v)
    ensures Sound(g, roots, policy, violations) && BroughtInAll(g, roots, policy, {}, violations)
  {
    var left := set pid | pid in reached && IsDevGuard(g.packages[pid]);
    violations := {};
    while left != {}
      invariant forall pid | pid in left :: pid in reached && IsDevGuard(g.packages[pid])
      invariant Sound(g, roots, policy, violations) && BroughtInAll(g, roots, policy, left, violations)
      decreases left
    {
      var start :| start in left;
      forall v | Reaches(g, start, v) ensures Resolved(g, v) {
        StillReachable(g, roots, start, v);
      }
      var ok, seen := Traverse(g, start);
      assert Found(g, start, seen);
      BroughtInSound(g, roots, policy, start, seen);
      OneStartMore(g, roots, policy, left, start, violations, seen);
      violations := violations + BroughtInBy(g, seen);
      left := left - {start};
    }
  }

  lemma OneStartMore(g: Metadata, roots: seq<Id>, policy: Policy, left: set<Id>, start: Id,
                     violations: set<Violation>, seen: map<Id, seq<Id>>)
    requires BroughtInAll(g, roots, policy, left, violations) && Found(g, start, seen)
    ensures BroughtInAll(g, roots, policy, left - {start}, violations + BroughtInBy(g, seen))
  {
    var mine := BroughtInBy(g, seen);
    forall s, v | s !in left - {start} && Wrong(g, roots, policy, s, v, BroughtIn)
      ensures Named(g, s, v, BroughtIn, violations + mine)
    {
      if s == start {
        BroughtInNamed(g, roots, policy, start, seen, v);
        NamedStays(g, s, v, BroughtIn, mine, violations + mine);
      } else {
        NamedStays(g, s, v, BroughtIn, violations, violations + mine);
      }
    }
  }

  lemma EverythingNamed(g: Metadata, roots: seq<Id>, policy: Policy, some: set<Violation>, more: set<Violation>)
    requires RootsNamed(g, roots, policy, |roots|, some) && BroughtInAll(g, roots, policy, {}, more)
    ensures forall root, v, problem | Wrong(g, roots, policy, root, v, problem) ::
              Named(g, root, v, problem, some + more)
  {
  }

  /** The product graph of the roots. */
  method Graph(g: Metadata, roots: seq<Id>, policy: Policy) returns (r: Result)
    ensures r.MissingRoot? <==> roots == [] || exists i :: 0 <= i < |roots| && !Known(g, roots[i])
    ensures !r.MissingRoot? ==> (r.Ok? <==> AllResolved(g, roots))
    ensures r.Ok? ==> Complete(g, roots, policy, r.report)
  {
    if roots == [] || exists i :: 0 <= i < |roots| && !Known(g, roots[i]) {
      return MissingRoot;
    }
    var ok, report, reached := FromRoots(g, roots, policy);
    if !ok {
      return Unresolved;
    }
    assert roots[..|roots|] == roots;
    var more := FromDevGuard(g, roots, policy, reached);
    EverythingNamed(g, roots, policy, report.violations, more);
    return Ok(report.(violations := report.violations + more));
  }

  /** A report without violations: nothing is wrong. */
  lemma NothingWrong(g: Metadata, roots: seq<Id>, policy: Policy, report: Report, root: Id, v: Id, problem: Problem)
    requires Complete(g, roots, policy, report) && report.violations == {}
    ensures !Wrong(g, roots, policy, root, v, problem)
  {
  }

  /** No root then reaches a package forbidden to all, nor the Runner one forbidden to it; every DevGuard
      crate is the pinned one, in its product set and under the feature, without which there is no adapter
      of it either; every Codex crate comes from the gitlink; and no DevGuard crate brings one of ours in. */
  lemma CleanReport(g: Metadata, roots: seq<Id>, policy: Policy, report: Report, i: nat, v: Id)
    requires i < |roots| && roots[i] in g.packages && v in g.packages && Reaches(g, roots[i], v)
    requires Complete(g, roots, policy, report) && report.violations == {}
    ensures var p := g.packages[v];
            && p.name !in policy.forbidden
            && (g.packages[roots[i]].name == "codespace-runner" ==> p.name !in policy.runnerForbidden)
            && ("devguard-" <= p.name ==>
                policy.devguard && p.source == policy.devguardSource && p.name in policy.devguardProduct)
            && ("codex-" <= p.name ==> policy.codexPath <= p.source)
            && (p.name == "codespace-devguard" ==> policy.devguard)
    ensures forall u | u in g.packages && Reaches(g, v, u) && "devguard-" <= g.packages[v].name ::
              !("codex-" <= g.packages[u].name) && !("codespace-" <= g.packages[u].name)
  {
    var p := g.packages[v];
    assert roots[i] in roots;
    NothingWrong(g, roots, policy, report, roots[i], v, Banned);
    assert IdentityProblem(p, policy) == None by {
      var problem := IdentityProblem(p, policy);
      if problem.Some? {
        NothingWrong(g, roots, policy, report, roots[i], v, problem.value);
      }
    }
    RightIdentity(p, policy);
    forall u | u in g.packages && Reaches(g, v, u) && IsDevGuard(p) ensures !IsOurs(g.packages[u]) {
      assert Reachable(g, roots, v);
      NothingWrong(g, roots, policy, report, v, u, BroughtIn);
    }
  }

  /** The other way, what a report names is so: the package is banned from the root, is not what it claims
      to be, or is one of ours behind a DevGuard crate that the roots reach; and the trail leads to it. */
  lemma ViolationIsReal(g: Metadata, roots: seq<Id>, policy: Policy, report: Report, x: Violation)
    requires Complete(g, roots, policy, report) && x in report.violations
    ensures |x.trail| > 0 && x.trail[0] in g.packages && x.trail[|x.trail| - 1] in g.packages
    ensures Shortest(g, x.trail[0], x.trail[|x.trail| - 1], x.trail)
    ensures x.problem.BroughtIn? || x.trail[0] in roots
    ensures var root, p := g.packages[x.trail[0]], g.packages[x.trail[|x.trail| - 1]];
            match x.problem
            case Banned => p.name in policy.forbidden || (root.name == "codespace-runner" && p.name in policy.runnerForbidden)
            case NotThePin => "devguard-" <= p.name && p.source != policy.devguardSource
            case OutsideProductSet => "devguard-" <= p.name && p.name !in policy.devguardProduct
            case NotTheGitlink => "codex-" <= p.name && !(policy.codexPath <= p.source)
            case OutsideTheFeature => !policy.devguard && ("devguard-" <= p.name || p.name == "codespace-devguard")
            case BroughtIn =>
              Reachable(g, roots, x.trail[0]) && "devguard-" <= root.name && ("codex-" <= p.name || "codespace-" <= p.name)
  {
    assert Wrong(g, roots, policy, x.trail[0], x.trail[|x.trail| - 1], x.problem);
  }

  /** A product dependency: neither for development nor of a kind of its own. */
  predicate PullsIn(kind: Kind) {
    kind == Unset || kind == Normal || kind == Build
  }

  /** One of a dependency's kinds does. */
  ghost predicate PulledIn(kinds: seq<DepKind>) {
    exists k :: 0 <= k < |kinds| && PullsIn(kinds[k].kind)
  }

  lemma {:induction false} ChildrenIff(deps: seq<Dep>, w: Id)
    ensures w in ChildrenOf(deps) <==> exists i :: 0 <= i < |deps| && deps[i].pkg == w && PulledIn(deps[i].kinds)
  {
    if deps != [] {
      var n := |deps| - 1;
      ChildrenIff(deps[..n], w);
      RepeatsIff(deps[n].pkg, deps[n].kinds, w);
      assert forall i | 0 <= i < n :: deps[..n][i] == deps[i];
    }
  }

  lemma {:induction false} RepeatsIff(pkg: Id, kinds: seq<DepKind>, w: Id)
    ensures w in Repeats(pkg, kinds) <==> w == pkg && PulledIn(kinds)
  {
    if kinds != [] {
      var n := |kinds| - 1;
      RepeatsIff(pkg, kinds[..n], w);
      assert forall k | 0 <= k < n :: kinds[..n][k] == kinds[k];
    }
  }

  /** The reported edges of a package are its product dependencies, an unset kind being a normal one. */
  lemma EdgesIff(g: Metadata, pid: Id, e: Edge)
    requires Known(g, pid)
    ensures e in EdgesFrom(g, pid) <==>
              exists i, k :: 0 <= i < |g.nodes[pid]| && 0 <= k < |g.nodes[pid][i].kinds| && EdgeFor(g, pid, i, k, e)
  {
    var deps := g.nodes[pid];
    if e in EdgesFrom(g, pid) {
      var i, k :| 0 <= i < |deps| && 0 <= k < |deps[i].kinds| && IsProduct(deps[i].kinds[k]) && deps[i].pkg in g.packages
                  && var kind := deps[i].kinds[k];
                     e == Edge(g.packages[pid], g.packages[deps[i].pkg], if kind.kind.Unset? then Normal else kind.kind, kind.target);
      assert EdgeFor(g, pid, i, k, e);
    }
    if i, k :| 0 <= i < |deps| && 0 <= k < |deps[i].kinds| && EdgeFor(g, pid, i, k, e) {
      assert IsProduct(deps[i].kinds[k]);
    }
  }

  ghost predicate EdgeFor(g: Metadata, pid: Id, i: nat, k: nat, e: Edge)
    requires Known(g, pid) && i < |g.nodes[pid]| && k < |g.nodes[pid][i].kinds|
  {
    var dep := g.nodes[pid][i];
    && dep.pkg in g.packages && e.from == g.packages[pid] && e.till == g.packages[dep.pkg]
    && e.target == dep.kinds[k].target && PullsIn(dep.kinds[k].kind)
    && e.kind == match dep.kinds[k].kind case Build => Build case _ => Normal
  }

  lemma RightIdentity(p: Package, policy: Policy)
    requires IdentityProblem(p, policy) == None
    ensures IsDevGuard(p) ==> policy.devguard && p.source == policy.devguardSource && p.name in policy.devguardProduct
    ensures "codex-" <= p.name && !IsDevGuard(p) ==> policy.codexPath <= p.source
    ensures p.name == "codespace-devguard" ==> policy.devguard
  {
  }

  /** Of the repository's own policy: a DevGuard crate in a clean report is the pinned client
      or contract. */
  lemma CleanReviewedReport(g: Metadata, roots: seq<Id>, devguard: bool, pin: string, report: Report, i: nat, v: Id)
    requires i < |roots| && roots[i] in g.packages && v in g.packages && Reaches(g, roots[i], v)
    requires Complete(g, roots, Reviewed(devguard, pin), report) && report.violations == {} && IsDevGuard(g.packages[v])
    ensures devguard && g.packages[v].source == pin && g.packages[v].name in {"devguard-client", "devguard-contract"}
  {
    CleanReport(g, roots, Reviewed(devguard, pin), report, i, v);
  }

  lemma StillReachable(g: Metadata, roots: seq<Id>, start: Id, v: Id)
    requires Reachable(g, roots, start) && Reaches(g, start, v)
    ensures Reachable(g, roots, v)
  {
    var i :| 0 <= i < |roots| && Reaches(g, roots[i], start);
    ReachesOn(g, roots[i], start, v);
  }
}
