/**
  The gate that sampled actions pass while a gateway serves, `Serving` in scripts/qualify-devguard.py.
  Every method holds the condition's lock, and `close` releases it while it waits, so the object is a
  state machine whose steps may interleave in any order: the two halves of `close`, and each of the
  other methods, are one step. Times are integers of any unit.
*/
module Serving {

  datatype Option<T> = None | Some(value: T)

  /** The object's fields. */
  datatype Gate = Gate(gateway: Option<nat>, inflight: int, since: Option<int>, served: int)

  /** The class, with the clock's readings as parameters. */
  class Serving {
    var gateway: Option<nat>
    var inflight: int
    var since: Option<int>
    var served: int

    function Value(): Gate
      reads this
    {
      Gate(gateway, inflight, since, served)
    }

    constructor ()
      ensures Value() == Fresh()
    {
      gateway, inflight, since, served := None, 0, None, 0;
    }

    method Serve(next: nat, now: int)
      modifies this
      ensures Value() == Opened(old(Value()), next, now)
    {
      gateway := Some(next);
      since := Some(now);
    }

    /** What an action gets: the gateway that serves, or none while the gate is closed. */
    method Enter() returns (entered: Option<nat>)
      modifies this
      ensures entered == old(gateway) && Value() == Entered(old(Value()))
    {
      if gateway == None {
        return None;
      }
      inflight := inflight + 1;
      return gateway;
    }

    method Leave()
      modifies this
      ensures Value() == Left(old(Value()))
    {
      inflight := inflight - 1;
    }

    /** The first half of `close`, up to its first wait. */
    method BeginClose(now: int, limit: nat) returns (deadline: int)
      modifies this
      ensures deadline == now + limit && Value() == Closed(old(Value()), now)
    {
      gateway := None;
      if since != None {
        served := served + (now - since.value);
        since := None;
      }
      deadline := now + limit;
    }

    /** The test `close` makes before it waits and whenever it is woken: what it answers once the gate
        is drained or its deadline has come, and none while it goes on waiting. */
    method CheckClose(now: int, deadline: int) returns (left: Option<int>)
      ensures left == Answer(Value(), now, deadline)
    {
      if inflight != 0 && now < deadline {
        return None;
      }
      return Some(inflight);
    }
  }

  function Fresh(): Gate {
    Gate(None, 0, None, 0)
  }

  function Opened(g: Gate, gateway: nat, now: int): Gate {
    g.(gateway := Some(gateway), since := Some(now))
  }

  function Entered(g: Gate): Gate {
    if g.gateway == None then g else g.(inflight := g.inflight + 1)
  }

  function Left(g: Gate): Gate {
    g.(inflight := g.inflight - 1)
  }

  function Closed(g: Gate, now: int): Gate {
    g.(gateway := None, since := None, served := if g.since == None then g.served else g.served + (now - g.since.value))
  }

  function Answer(g: Gate, now: int, deadline: int): Option<int> {
    if g.inflight != 0 && now < deadline then None else Some(g.inflight)
  }

  /** What the threads using the gate can do: the clock moves, a gateway begins to serve, an action
      enters or leaves, a `close` begins or answers. An action leaves only once it has entered, as
      `gated` has it. */
  datatype Step =
    | Wait(time: nat)
    | Serve(gateway: nat)
    | Enter(action: nat)
    | Leave(action: nat)
    | BeginClose(closer: nat, limit: nat)
    | EndClose(closer: nat)

  /** The gate, the time, the gateway each action in flight holds, the deadline of each `close` that
      waits, what each `close` answered, and how long the gate has stood open, as a clock beside the
      gate would have it. */
  datatype World = World(
    gate: Gate,
    now: int,
    holders: map<nat, nat>,
    waiting: map<nat, int>,
    answers: map<nat, int>,
    openFor: int)

  function Start(now: int): World {
    World(Fresh(), now, map[], map[], map[], 0)
  }

  predicate Allowed(w: World, step: Step) {
    match step
    case Wait(_) => true
    case Serve(_) => true
    case Enter(a) => a !in w.holders
    case Leave(a) => a in w.holders
    case BeginClose(c, _) => c !in w.waiting
    case EndClose(c) => c in w.waiting && Answer(w.gate, w.now, w.waiting[c]).Some?
  }

  function Perform(w: World, step: Step): World
    requires Allowed(w, step)
  {
    match step
    case Wait(time) => w.(now := w.now + time, openFor := w.openFor + if w.gate.gateway == None then 0 else time)
    case Serve(gateway) => w.(gate := Opened(w.gate, gateway, w.now))
    case Enter(a) =>
      w.(gate := Entered(w.gate),
         holders := if w.gate.gateway == None then w.holders else w.holders[a := w.gate.gateway.value])
    case Leave(a) => w.(gate := Left(w.gate), holders := w.holders - {a})
    case BeginClose(c, limit) => w.(gate := Closed(w.gate, w.now), waiting := w.waiting[c := w.now + limit])
    case EndClose(c) =>
      w.(waiting := w.waiting - {c}, answers := w.answers[c := Answer(w.gate, w.now, w.waiting[c]).value])
  }

  predicate Legal(w: World, steps: seq<Step>)
    decreases |steps|
  {
    steps == [] || (Allowed(w, steps[0]) && Legal(Perform(w, steps[0]), steps[1..]))
  }

  function Run(w: World, steps: seq<Step>): World
    requires Legal(w, steps)
    decreases |steps|
  {
    if steps == [] then w else Run(Perform(w, steps[0]), steps[1..])
  }

  /** The counter is the number of actions that hold a gateway, and the gate knows since when it is open. */
  ghost predicate Inv(w: World) {
    && w.gate.inflight == |w.holders|
    && (w.gate.gateway == None <==> w.gate.since == None)
    && (w.gate.since != None ==> w.gate.since.value <= w.now)
  }

  lemma StepKeepsInv(w: World, step: Step)
    requires Inv(w) && Allowed(w, step)
    ensures Inv(Perform(w, step))
  {
  }

  /** In every reachable state the counter is the number of actions in flight, so what `close` answers
      is that number exactly. */
  lemma {:induction false} InflightCounts(w: World, steps: seq<Step>)
    requires Inv(w) && Legal(w, steps)
    ensures Inv(Run(w, steps))
    decreases |steps|
  {
    if steps != [] {
      StepKeepsInv(w, steps[0]);
      InflightCounts(Perform(w, steps[0]), steps[1..]);
    }
  }

  /** The gateways that began to serve during the steps. */
  function ServedIn(steps: seq<Step>): set<nat> {
    if steps == [] then {}
    else (if steps[0].Serve? then {steps[0].gateway} else {}) + ServedIn(steps[1..])
  }

  /** The gateways that an action holds or could still enter. */
  function InUse(w: World): set<nat> {
    w.holders.Values + (if w.gate.gateway == None then {} else {w.gate.gateway.value})
  }

  lemma {:induction false} OnlyServedGateways(w: World, steps: seq<Step>)
    requires Legal(w, steps)
    ensures InUse(Run(w, steps)) <= InUse(w) + ServedIn(steps)
    decreases |steps|
  {
    if steps != [] {
      var v := Perform(w, steps[0]);
      OnlyServedGateways(v, steps[1..]);
      assert InUse(v) <= InUse(w) + ServedIn(steps);
    }
  }

  lemma {:induction false} ClosedStaysClosed(w: World, steps: seq<Step>)
    requires Legal(w, steps) && w.gate.gateway == None && ServedIn(steps) == {}
    ensures Run(w, steps).gate.gateway == None
    ensures forall a | a in Run(w, steps).holders :: a in w.holders
    decreases |steps|
  {
    if steps != [] {
      ClosedStaysClosed(Perform(w, steps[0]), steps[1..]);
    }
  }

  /**
    A restart may end the gateway: once a `close` has answered 0, whatever happened while it waited and
    whatever happens afterwards, no action ever holds, or can enter, a gateway that did not begin to
    serve after that `close` began.
  */
  lemma ClosedGatewayIsFree(w: World, closer: nat, limit: nat, during: seq<Step>, after: seq<Step>)
    requires Inv(w) && Allowed(w, BeginClose(closer, limit))
    requires Legal(Perform(w, BeginClose(closer, limit)), during)
    requires Allowed(Run(Perform(w, BeginClose(closer, limit)), during), EndClose(closer))
    requires var v := Perform(Run(Perform(w, BeginClose(closer, limit)), during), EndClose(closer));
             v.answers[closer] == 0 && Legal(v, after)
    ensures var v := Perform(Run(Perform(w, BeginClose(closer, limit)), during), EndClose(closer));
            InUse(Run(v, after)) <= ServedIn(during) + ServedIn(after)
  {
    var closing := Perform(w, BeginClose(closer, limit));
    StepKeepsInv(w, BeginClose(closer, limit));
    InflightCounts(closing, during);
    var drained := Run(closing, during);
    var v := Perform(drained, EndClose(closer));
    assert |drained.holders| == 0;
    NowServing(closing, during);
    assert v.holders == map[] && InUse(v) <= ServedIn(during);
    OnlyServedGateways(v, after);
  }

  /** A gateway that serves now served before, or began to during the steps. */
  lemma {:induction false} NowServing(w: World, steps: seq<Step>)
    requires Legal(w, steps)
    ensures var g := Run(w, steps).gate.gateway;
            g == None || g == w.gate.gateway || g.value in ServedIn(steps)
    decreases |steps|
  {
    if steps != [] {
      NowServing(Perform(w, steps[0]), steps[1..]);
    }
  }

  /** While no gateway begins to serve, nothing enters: after a `close` begins the actions in flight
      are some of those that were, and once it answered 0 there are none. */
  lemma NothingEnters(w: World, closer: nat, limit: nat, during: seq<Step>, after: seq<Step>)
    requires Inv(w) && Allowed(w, BeginClose(closer, limit)) && ServedIn(during) == {} && ServedIn(after) == {}
    requires Legal(Perform(w, BeginClose(closer, limit)), during)
    requires Allowed(Run(Perform(w, BeginClose(closer, limit)), during), EndClose(closer))
    requires Legal(Perform(Run(Perform(w, BeginClose(closer, limit)), during), EndClose(closer)), after)
    ensures var v := Perform(Run(Perform(w, BeginClose(closer, limit)), during), EndClose(closer));
            && (forall a | a in v.holders :: a in w.holders)
            && v.answers[closer] == |v.holders|
            && (forall a | a in Run(v, after).holders :: a in v.holders)
            && (v.answers[closer] == 0 ==> Run(v, after).holders == map[])
            && Run(v, after).gate.gateway == None
  {
    var closing := Perform(w, BeginClose(closer, limit));
    StepKeepsInv(w, BeginClose(closer, limit));
    InflightCounts(closing, during);
    ClosedStaysClosed(closing, during);
    var v := Perform(Run(closing, during), EndClose(closer));
    ClosedStaysClosed(v, after);
  }

  predicate Ends(steps: seq<Step>, closer: nat) {
    exists i :: 0 <= i < |steps| && steps[i] == EndClose(closer)
  }

  lemma {:induction false} DeadlineStands(w: World, steps: seq<Step>, closer: nat)
    requires Legal(w, steps) && closer in w.waiting && !Ends(steps, closer)
    ensures closer in Run(w, steps).waiting && Run(w, steps).waiting[closer] == w.waiting[closer]
    decreases |steps|
  {
    if steps != [] {
      assert steps[0] != EndClose(closer);
      forall i | 0 <= i < |steps| - 1 ensures steps[1..][i] != EndClose(closer) {
        assert steps[i + 1] != EndClose(closer);
      }
      DeadlineStands(Perform(w, steps[0]), steps[1..], closer);
    }
  }

  /** Whatever happens while it waits, a `close` answers exactly when no action is in flight any more or
      its limit has passed since it began, and it answers once. */
  lemma CloseAnswersWhen(w: World, closer: nat, limit: nat, during: seq<Step>)
    requires Inv(w) && Allowed(w, BeginClose(closer, limit))
    requires Legal(Perform(w, BeginClose(closer, limit)), during) && !Ends(during, closer)
    ensures var v := Run(Perform(w, BeginClose(closer, limit)), during);
            && (Allowed(v, EndClose(closer)) <==> v.holders == map[] || v.now >= w.now + limit)
            && (Allowed(v, EndClose(closer)) ==> !Allowed(Perform(v, EndClose(closer)), EndClose(closer)))
  {
    var closing := Perform(w, BeginClose(closer, limit));
    StepKeepsInv(w, BeginClose(closer, limit));
    InflightCounts(closing, during);
    DeadlineStands(closing, during, closer);
  }

  /** How long the gate has been open since the last `serve`. */
  function Current(w: World): int {
    if w.gate.since == None then 0 else w.now - w.gate.since.value
  }

  /** The open time that the steps drop: what a `serve` finds already open. */
  function Dropped(w: World, steps: seq<Step>): int
    requires Legal(w, steps)
    decreases |steps|
  {
    if steps == [] then 0
    else (if steps[0].Serve? then Current(w) else 0) + Dropped(Perform(w, steps[0]), steps[1..])
  }

  /** Conservation: every moment the gate stood open is counted once, as served, as part of the
      current opening, or as dropped by a `serve` that found the gate open. */
  lemma {:induction false} OpenTimeIsConserved(w: World, steps: seq<Step>)
    requires Inv(w) && Legal(w, steps)
    ensures var v := Run(w, steps);
            && Dropped(w, steps) >= 0
            && v.openFor - w.openFor
               == (v.gate.served + Current(v)) - (w.gate.served + Current(w)) + Dropped(w, steps)
    decreases |steps|
  {
    if steps != [] {
      StepKeepsInv(w, steps[0]);
      OpenTimeIsConserved(Perform(w, steps[0]), steps[1..]);
    }
  }

  /** A `serve` while the gate has been open for some time, which drops that time. */
  ghost predicate Reserves(w: World, steps: seq<Step>)
    requires Legal(w, steps)
    decreases |steps|
  {
    steps != [] && ((steps[0].Serve? && Current(w) > 0) || Reserves(Perform(w, steps[0]), steps[1..]))
  }

  lemma {:induction false} DroppedIff(w: World, steps: seq<Step>)
    requires Inv(w) && Legal(w, steps)
    ensures Dropped(w, steps) >= 0 && (Dropped(w, steps) > 0 <==> Reserves(w, steps))
    decreases |steps|
  {
    if steps != [] {
      StepKeepsInv(w, steps[0]);
      DroppedIff(Perform(w, steps[0]), steps[1..]);
    }
  }

  /** The time served, over any run: never more than the gate stood open, and, once it is closed,
      exactly that time if and only if no `serve` found the gate open for some time already. */
  lemma ServedTimeIsExact(now: int, steps: seq<Step>)
    requires Legal(Start(now), steps)
    ensures var v := Run(Start(now), steps);
            && 0 <= v.gate.served + Current(v) <= v.openFor
            && (v.gate.served + Current(v) == v.openFor <==> !Reserves(Start(now), steps))
            && (v.gate.gateway == None ==> Current(v) == 0)
  {
    var w := Start(now);
    InflightCounts(w, steps);
    OpenTimeIsConserved(w, steps);
    DroppedIff(w, steps);
    ServedIsNonNegative(w, steps);
  }

  lemma {:induction false} ServedIsNonNegative(w: World, steps: seq<Step>)
    requires Inv(w) && Legal(w, steps) && w.gate.served >= 0
    ensures Run(w, steps).gate.served >= 0
    decreases |steps|
  {
    if steps != [] {
      StepKeepsInv(w, steps[0]);
      ServedIsNonNegative(Perform(w, steps[0]), steps[1..]);
    }
  }

  /** Two gateways served one after the other without a `close` between: half of the time is dropped. */
  lemma ServeTwiceDropsTime()
    ensures var steps := [Serve(1), Wait(5), Serve(2), Wait(5), BeginClose(0, 30)];
            && Legal(Start(0), steps)
            && Run(Start(0), steps).openFor == 10 && Run(Start(0), steps).gate.served == 5
  {
  }
}
