/**
  Request and answer matching of the MCP client in scripts/qualify_host.py: callers on many threads,
  one reader thread, timeouts and the loss of the connection. Every block that holds the lock is one
  step, and so is everything a thread does between two of them that another thread can see.

  An answer's id is JSON. Python looks it up in a dictionary keyed by integers, so true finds 1, and
  an array or an object cannot be looked up at all: the reader thread ends there with an exception
  nothing catches. It ends so, too, on a line whose parsing fails for another reason than that it
  is not JSON, such as one nested too deeply. A number with a fraction of zero is that whole number.
*/
module McpClient {

  datatype Option<+T> = None | Some(value: T)

  datatype JsonId = Absent | Number(n: int) | Boolean(b: bool) | Text(s: string) | Composite

  datatype Message = Message(id: JsonId, body: string)

  /** The integer key an id finds, if any. */
  function KeyOf(id: JsonId): Option<int> {
    match id
    case Number(n) => Some(n)
    case Boolean(b) => Some(if b then 1 else 0)
    case _ => None
  }

  /** What the lock protects: the last id given out, the ids waited for, and whether the connection
      was lost. */
  datatype Table = Table(nextId: nat, pending: set<nat>, lost: bool)

  function Registered(t: Table): Table
    requires !t.lost
  {
    t.(nextId := t.nextId + 1, pending := t.pending + {t.nextId + 1})
  }

  function Removed(t: Table, id: nat): Table {
    t.(pending := t.pending - {id})
  }

  function Ended(t: Table): Table {
    t.(lost := true, pending := {})
  }

  /** The object's fields and the blocks that hold its lock. */
  class Client {
    var nextId: nat
    var pending: set<nat>
    var lost: bool

    ghost function Value(): Table
      reads this
    {
      Table(nextId, pending, lost)
    }

    constructor ()
      ensures Value() == Table(0, {}, false)
    {
      nextId, pending, lost := 0, {}, false;
    }

    /** A caller's waiter under a new id, unless the connection was lost. */
    method Register() returns (id: Option<nat>)
      modifies this
      ensures old(lost) ==> id == None && Value() == old(Value())
      ensures !old(lost) ==> Value() == Registered(old(Value())) && id == Some(nextId)
    {
      if lost {
        return None;
      }
      nextId := nextId + 1;
      pending := pending + {nextId};
      return Some(nextId);
    }

    /** The waiter an answer is for, taken out; looking up an id that is no dictionary key raises. */
    method Take(message: Message) returns (raised: bool, id: Option<nat>)
      modifies this
      ensures raised <==> message.id.Composite?
      ensures id.Some? ==> KeyOf(message.id) == Some(id.value) && id.value in old(pending)
      ensures id.None? ==> forall k: nat | k in old(pending) :: KeyOf(message.id) != Some(k)
      ensures Value() == if id.Some? then Removed(old(Value()), id.value) else old(Value())
    {
      var key := KeyOf(message.id);
      if key.Some? && key.value >= 0 && key.value in pending {
        pending := pending - {key.value};
        return false, Some(key.value);
      }
      return message.id.Composite?, None;
    }

    /** A caller that timed out or could not send gives up its waiter. */
    method Remove(id: nat)
      modifies this
      ensures Value() == Removed(old(Value()), id)
    {
      pending := pending - {id};
    }

    /** The connection is over; every waiter left is to be woken. */
    method Lose() returns (waiters: set<nat>)
      modifies this
      ensures waiters == old(pending) && Value() == Ended(old(Value()))
    {
      waiters := pending;
      lost, pending := true, {};
    }
  }

  // ---------------------------------------------------------------- the threads

  datatype Outcome = Answer(message: Message) | NoAnswer | ConnectionLost | SendFailed

  datatype Stage = Sending | Waiting | Expired | Finished(outcome: Outcome)

  /** A caller and its waiter; `woken` counts how often its event was set. */
  datatype Call = Call(stage: Stage, woken: nat, message: Option<Message>)

  datatype Reader =
    | Reading
    | Delivering(id: nat, message: Message)
    | Closing(waiters: set<nat>)
    | Over
    | Crashed

  datatype State = State(table: Table, calls: map<nat, Call>, reader: Reader)

  const INITIAL := State(Table(0, {}, false), map[], Reading)

  datatype Action =
    | Request
    | Send(id: nat, ok: bool)
    // The reader takes an answer off the pipe and looks its waiter up, then sets the event.
    | Take(message: Message)
    | Deliver
    // A line that is no answer: not JSON, not an object, or a request of the server's.
    | Skip
    // A line whose parsing or recording raises what the reader does not catch.
    | Choke
    // The pipe ended: the reader marks the loss and takes all waiters, then sets their events.
    | End
    | Wake(id: nat)
    // A caller's wait runs out, and it gives up its waiter; or its event was set, and it goes on.
    | Expire(id: nat)
    | GiveUp(id: nat)
    | Resume(id: nat)

  predicate Allowed(s: State, a: Action) {
    match a
    case Request => true
    case Send(id, _) => id in s.calls && s.calls[id].stage.Sending?
    case Take(_) => s.reader.Reading?
    case Deliver => s.reader.Delivering? && s.reader.id in s.calls
    case Skip => s.reader.Reading?
    case Choke => s.reader.Reading?
    case End => s.reader.Reading?
    case Wake(id) => s.reader.Closing? && id in s.reader.waiters && id in s.calls
    case Expire(id) => id in s.calls && s.calls[id].stage.Waiting? && s.calls[id].woken == 0
    case GiveUp(id) => id in s.calls && s.calls[id].stage.Expired?
    case Resume(id) => id in s.calls && s.calls[id].stage.Waiting? && s.calls[id].woken > 0
  }

  function Staged(s: State, id: nat, stage: Stage): State
    requires id in s.calls
  {
    s.(calls := s.calls[id := s.calls[id].(stage := stage)])
  }

  function Woke(s: State, id: nat, message: Option<Message>): State
    requires id in s.calls
  {
    var call := s.calls[id];
    s.(calls := s.calls[id := call.(woken := call.woken + 1, message := message)])
  }

  function Perform(s: State, a: Action): State
    requires Allowed(s, a)
  {
    match a
    case Request =>
      if s.table.lost then s
      else
        var t := Registered(s.table);
        s.(table := t, calls := s.calls[t.nextId := Call(Sending, 0, None)])
    case Send(id, ok) =>
      if ok then Staged(s, id, Waiting)
      else Staged(s, id, Finished(SendFailed)).(table := Removed(s.table, id))
    case Take(message) =>
      var key := KeyOf(message.id);
      if message.id.Composite? then s.(reader := Crashed)
      else if key.Some? && key.value >= 0 && key.value in s.table.pending then
        s.(table := Removed(s.table, key.value), reader := Delivering(key.value, message))
      else s
    case Deliver => Woke(s, s.reader.id, Some(s.reader.message)).(reader := Reading)
    case Skip => s
    case Choke => s.(reader := Crashed)
    case End => s.(table := Ended(s.table), reader := Close(s.table.pending))
    case Wake(id) => Woke(s, id, None).(reader := Close(s.reader.waiters - {id}))
    case Expire(id) => Staged(s, id, Expired)
    case GiveUp(id) => Staged(s, id, Finished(NoAnswer)).(table := Removed(s.table, id))
    case Resume(id) =>
      var message := s.calls[id].message;
      Staged(s, id, Finished(if message.Some? then Answer(message.value) else ConnectionLost))
  }

  function Close(waiters: set<nat>): Reader {
    if waiters == {} then Over else Closing(waiters)
  }

  predicate Legal(s: State, actions: seq<Action>)
    decreases |actions|
  {
    actions == [] || (Allowed(s, actions[0]) && Legal(Perform(s, actions[0]), actions[1..]))
  }

  function Run(s: State, actions: seq<Action>): State
    requires Legal(s, actions)
    decreases |actions|
  {
    if actions == [] then s else Run(Perform(s, actions[0]), actions[1..])
  }

  // ---------------------------------------------------------------- what every run keeps

  /** The reader holds this waiter, which it took out of the table and has not woken yet. */
  predicate Held(r: Reader, id: nat) {
    (r.Delivering? && r.id == id) || (r.Closing? && id in r.waiters)
  }

  ghost predicate CallInv(s: State, id: nat)
    requires id in s.calls
  {
    var c := s.calls[id];
    && 1 <= id <= s.table.nextId && c.woken <= 1
    && (id in s.table.pending ==> c.woken == 0 && !Held(s.reader, id) && !c.stage.Finished?)
    && (Held(s.reader, id) ==> c.woken == 0)
    && (c.woken == 0 ==> c.message.None?)
    && (c.message.Some? ==> KeyOf(c.message.value.id) == Some(id))
    // Nobody is forgotten: a waiter is in the table, in the reader's hands, woken, or given up.
    && (id in s.table.pending || Held(s.reader, id) || c.woken == 1
        || c.stage == Finished(SendFailed) || c.stage == Finished(NoAnswer))
    && (c.stage.Finished? && c.stage.outcome.Answer? ==> c.message == Some(c.stage.outcome.message))
    && (c.stage == Finished(ConnectionLost) ==> s.table.lost && c.woken == 1 && c.message.None?)
    && (c.woken == 1 && c.message.None? ==> s.table.lost)
  }

  ghost predicate Inv(s: State) {
    && (forall id | id in s.table.pending :: id in s.calls)
    && (s.table.lost ==> s.table.pending == {})
    && (s.table.lost <==> s.reader.Closing? || s.reader.Over?)
    && (s.reader.Delivering? ==> s.reader.id in s.calls && KeyOf(s.reader.message.id) == Some(s.reader.id))
    && (s.reader.Closing? ==> s.reader.waiters != {} && forall id | id in s.reader.waiters :: id in s.calls)
    && forall id {:trigger CallInv(s, id)} | id in s.calls :: CallInv(s, id)
  }

  lemma PerformKeepsInv(s: State, a: Action)
    requires Inv(s) && Allowed(s, a)
    ensures Inv(Perform(s, a))
  {
    var t := Perform(s, a);
    forall id | id in t.calls ensures CallInv(t, id) {
      if id in s.calls {
        assert CallInv(s, id);
      } else {
        assert a.Request? && id == t.table.nextId;
      }
    }
  }

  /** Ids are given out once and in order, an event is set once and for good, what was lost stays lost
      and an outcome stands. */
  ghost predicate Later(s: State, t: State) {
    && s.table.nextId <= t.table.nextId && (s.table.lost ==> t.table.lost && t.calls.Keys == s.calls.Keys)
    && (forall id | id in s.calls ::
          && id in t.calls && s.calls[id].woken <= t.calls[id].woken
          && (s.calls[id].stage.Finished? ==> t.calls[id].stage == s.calls[id].stage)
          && (s.calls[id].message.Some? ==> t.calls[id].message == s.calls[id].message))
    && (forall id | id in t.calls && id !in s.calls :: s.table.nextId < id <= t.table.nextId)
    && (s.reader.Crashed? ==> t.reader.Crashed? && t.table.lost == s.table.lost
                              && forall id | id in s.calls :: t.calls[id].woken == s.calls[id].woken)
  }

  lemma PerformIsLater(s: State, a: Action)
    requires Inv(s) && Allowed(s, a)
    ensures Later(s, Perform(s, a))
  {
    if a.Deliver? {
      assert CallInv(s, s.reader.id);
    } else if a.Wake? {
      assert CallInv(s, a.id);
    } else if a.Request? && !s.table.lost {
      forall id | id in s.calls ensures id <= s.table.nextId {
        assert CallInv(s, id);
      }
    }
  }

  lemma {:induction false} RunKeepsInv(s: State, actions: seq<Action>)
    requires Inv(s) && Legal(s, actions)
    ensures Inv(Run(s, actions)) && Later(s, Run(s, actions))
    decreases |actions|
  {
    if actions != [] {
      PerformKeepsInv(s, actions[0]);
      PerformIsLater(s, actions[0]);
      RunKeepsInv(Perform(s, actions[0]), actions[1..]);
    }
  }

  /** In every interleaving: a waiter is woken at most once, with the message of its own id or, on a
      lost connection, with none; and a caller that gets an answer gets that one. The only other id
      that finds a waiter is `true`, which Python takes for 1. */
  lemma AnswersMatch(actions: seq<Action>, id: nat)
    requires Legal(INITIAL, actions) && id in Run(INITIAL, actions).calls
    ensures var s := Run(INITIAL, actions);
            var c := s.calls[id];
            && c.woken <= 1
            && (c.message.Some? ==>
                  c.woken == 1 &&
                  (c.message.value.id == Number(id) || (id == 1 && c.message.value.id == Boolean(true))))
            && (c.stage.Finished? && c.stage.outcome.Answer? ==> c.message == Some(c.stage.outcome.message))
            && (c.stage == Finished(ConnectionLost) ==> s.table.lost && c.message.None?)
  {
    RunKeepsInv(INITIAL, actions);
    assert CallInv(Run(INITIAL, actions), id);
  }

  /** In every run: a caller whose event was set goes on with its message, or with the loss of the
      connection when there is none; one whose wait ran out reports no answer, even if it was woken in
      the meantime, and no answer finds it any more. */
  lemma CallsEndAs(actions: seq<Action>, id: nat)
    requires Legal(INITIAL, actions) && id in Run(INITIAL, actions).calls
    ensures var s := Run(INITIAL, actions);
            && (Allowed(s, Resume(id)) ==>
                  Perform(s, Resume(id)).calls[id].stage ==
                    if s.calls[id].message.Some? then Finished(Answer(s.calls[id].message.value)) else Finished(ConnectionLost))
            && (Allowed(s, Resume(id)) && s.calls[id].message.None? ==> s.table.lost)
            && (Allowed(s, GiveUp(id)) ==>
                  && Perform(s, GiveUp(id)).calls[id].stage == Finished(NoAnswer)
                  && Perform(s, GiveUp(id)).table.pending == s.table.pending - {id})
            && (Allowed(s, Send(id, false)) ==>
                  && Perform(s, Send(id, false)).calls[id].stage == Finished(SendFailed)
                  && Perform(s, Send(id, false)).table.pending == s.table.pending - {id})
  {
    RunKeepsInv(INITIAL, actions);
    assert CallInv(Run(INITIAL, actions), id);
  }

  /** A call whose wait ran out. */
  ghost predicate RanOut(stage: Stage) {
    stage == Expired || stage == Finished(NoAnswer)
  }

  /** In every interleaving a wait runs out only while its event is not set; from then on the call waits for
      nothing and reports no answer, whatever the reader does. */
  lemma ExpiredCalls(before: seq<Action>, id: nat, after: seq<Action>)
    requires Legal(INITIAL, before) && Allowed(Run(INITIAL, before), Expire(id))
    requires Legal(Perform(Run(INITIAL, before), Expire(id)), after)
    ensures var s := Run(INITIAL, before);
            var t := Run(Perform(s, Expire(id)), after);
            && s.calls[id].stage == Waiting && s.calls[id].woken == 0
            && id in t.calls && RanOut(t.calls[id].stage)
  {
    RunKeepsInv(INITIAL, before);
    PerformKeepsInv(Run(INITIAL, before), Expire(id));
    ExpiredStays(Perform(Run(INITIAL, before), Expire(id)), id, after);
  }

  lemma {:induction false} ExpiredStays(s: State, id: nat, actions: seq<Action>)
    requires Inv(s) && Legal(s, actions) && id in s.calls && RanOut(s.calls[id].stage)
    ensures id in Run(s, actions).calls && RanOut(Run(s, actions).calls[id].stage)
    decreases |actions|
  {
    if actions != [] {
      assert CallInv(s, id);
      PerformKeepsInv(s, actions[0]);
      ExpiredStays(Perform(s, actions[0]), id, actions[1..]);
    }
  }

  /** A call reports no answer only after its wait ran out. */
  lemma {:induction false} NoAnswerWasExpired(s: State, id: nat, actions: seq<Action>)
    requires Inv(s) && Legal(s, actions) && id in Run(s, actions).calls
    requires RanOut(Run(s, actions).calls[id].stage)
    ensures Expire(id) in actions || (id in s.calls && RanOut(s.calls[id].stage))
    decreases |actions|
  {
    if actions != [] {
      PerformKeepsInv(s, actions[0]);
      NoAnswerWasExpired(Perform(s, actions[0]), id, actions[1..]);
    }
  }

  /** A request's id is new: above every id given out before it. */
  lemma IdsAreNew(actions: seq<Action>)
    requires Legal(INITIAL, actions) && !Run(INITIAL, actions).table.lost
    ensures var s := Run(INITIAL, actions);
            var t := Perform(s, Request);
            && t.calls.Keys - s.calls.Keys == {t.table.nextId}
            && forall id | id in s.calls :: id < t.table.nextId
  {
    RunKeepsInv(INITIAL, actions);
    var s := Run(INITIAL, actions);
    forall id | id in s.calls ensures id < s.table.nextId + 1 {
      assert CallInv(s, id);
    }
  }

  /** Once the connection is lost, no waiter is pending and none is ever registered again; and once
      the reader is done, every caller has been woken or had given up by itself. */
  lemma LossEndsEveryCall(before: seq<Action>, after: seq<Action>)
    requires Legal(INITIAL, before) && Run(INITIAL, before).table.lost && Legal(Run(INITIAL, before), after)
    ensures var s, t := Run(INITIAL, before), Run(Run(INITIAL, before), after);
            && t.table.lost && t.table.pending == {} && t.calls.Keys == s.calls.Keys
            && (t.reader.Over? ==>
                  forall id | id in t.calls ::
                    || t.calls[id].woken == 1
                    || t.calls[id].stage == Finished(SendFailed) || t.calls[id].stage == Finished(NoAnswer))
  {
    RunKeepsInv(INITIAL, before);
    var s := Run(INITIAL, before);
    RunKeepsInv(s, after);
    var t := Run(s, after);
    forall id | id in t.calls
      ensures t.reader.Over? ==>
                || t.calls[id].woken == 1
                || t.calls[id].stage == Finished(SendFailed) || t.calls[id].stage == Finished(NoAnswer)
    {
      assert CallInv(t, id);
    }
  }

  // ---------------------------------------------------------------- when the reader fails

  /** What the reader does not survive: an array or an object for an id, or a line its parser chokes on. */
  predicate Fatal(a: Action) {
    a.Choke? || (a.Take? && a.message.id.Composite?)
  }

  predicate SomeFatal(actions: seq<Action>) {
    exists i :: 0 <= i < |actions| && Fatal(actions[i])
  }

  lemma SomeFatalFirst(actions: seq<Action>)
    requires actions != []
    ensures SomeFatal(actions) <==> Fatal(actions[0]) || SomeFatal(actions[1..])
  {
    if i :| 0 <= i < |actions| && Fatal(actions[i]) {
      assert i > 0 ==> actions[1..][i - 1] == actions[i];
    }
    if i :| 0 <= i < |actions| - 1 && Fatal(actions[1..][i]) {
      assert actions[i + 1] == actions[1..][i];
    }
  }

  /** The reader fails exactly on one of those. */
  lemma {:induction false} CrashIffFatal(s: State, actions: seq<Action>)
    requires Inv(s) && Legal(s, actions)
    ensures Run(s, actions).reader.Crashed? <==> s.reader.Crashed? || SomeFatal(actions)
    decreases |actions|
  {
    if actions != [] {
      PerformKeepsInv(s, actions[0]);
      PerformIsLater(s, actions[0]);
      CrashIffFatal(Perform(s, actions[0]), actions[1..]);
      SomeFatalFirst(actions);
    }
  }

  /** Then the loss is never marked: whatever happens after, no waiter is woken again and requests are
      still registered, so callers only time out. In every run whose reader has stopped, the
      connection counts as lost exactly when nothing fatal came. */
  lemma StoppedReader(actions: seq<Action>, after: seq<Action>)
    requires Legal(INITIAL, actions) && Legal(Run(INITIAL, actions), after)
    requires Run(INITIAL, actions).reader.Over? || Run(INITIAL, actions).reader.Crashed?
    ensures var s, t := Run(INITIAL, actions), Run(Run(INITIAL, actions), after);
            && (s.table.lost <==> !SomeFatal(actions))
            && (SomeFatal(actions) ==>
                  && !t.table.lost
                  && (forall id | id in s.calls :: id in t.calls && t.calls[id].woken == s.calls[id].woken)
                  && Perform(t, Request).table.pending == t.table.pending + {t.table.nextId + 1})
  {
    RunKeepsInv(INITIAL, actions);
    CrashIffFatal(INITIAL, actions);
    var s := Run(INITIAL, actions);
    RunKeepsInv(s, after);
    var t := Run(s, after);
    assert Inv(s) && Inv(t) && Later(s, t);
  }

  // ---------------------------------------------------------------- when an answer is another's

  /** The message a caller has, or that is on its way to it. */
  function Given(s: State, id: nat): Option<Message>
    requires id in s.calls
  {
    if s.reader.Delivering? && s.reader.id == id then Some(s.reader.message) else s.calls[id].message
  }

  /** Some caller is given a message that is not for its number. */
  ghost predicate Misled(s: State) {
    exists id :: id in s.calls && Given(s, id).Some? && Given(s, id).value.id != Number(id)
  }

  /** The reader takes an answer with the id `true` while request 1 waits. */
  predicate TakesTrue(s: State, a: Action) {
    a.Take? && a.message.id == Boolean(true) && 1 in s.table.pending
  }

  predicate SomeTrue(s: State, actions: seq<Action>)
    requires Legal(s, actions)
    decreases |actions|
  {
    actions != [] && (TakesTrue(s, actions[0]) || SomeTrue(Perform(s, actions[0]), actions[1..]))
  }

  /** A message given stays given, and a step gives only the one it takes. */
  lemma GivenAfter(s: State, a: Action, id: nat)
    requires Inv(s) && Allowed(s, a) && id in s.calls
    ensures id in Perform(s, a).calls
    ensures Given(Perform(s, a), id) ==
              if a.Take? && KeyOf(a.message.id) == Some(id) && id in s.table.pending then Some(a.message) else Given(s, id)
  {
    assert CallInv(s, id);
  }

  lemma StepMisleads(s: State, a: Action)
    requires Inv(s) && Allowed(s, a)
    ensures Misled(Perform(s, a)) <==> Misled(s) || TakesTrue(s, a)
  {
    var t := Perform(s, a);
    forall id | id in s.calls
      ensures id in t.calls && Given(t, id) ==
                if a.Take? && KeyOf(a.message.id) == Some(id) && id in s.table.pending then Some(a.message) else Given(s, id)
      ensures id in s.table.pending ==> Given(s, id) == None
    {
      GivenAfter(s, a, id);
      assert CallInv(s, id);
    }
    forall id | id in t.calls && id !in s.calls ensures Given(t, id) == None {
      assert a.Request?;
    }
    if TakesTrue(s, a) {
      assert Given(t, 1) == Some(a.message);
    }
    if id :| id in s.calls && Given(s, id).Some? && Given(s, id).value.id != Number(id) {
      assert Given(t, id) == Given(s, id);
    }
    if id :| id in t.calls && Given(t, id).Some? && Given(t, id).value.id != Number(id) {
      assert CallInv(s, id);
      assert Given(t, id) == Given(s, id) || TakesTrue(s, a);
    }
  }

  lemma {:induction false} RunMisleads(s: State, actions: seq<Action>)
    requires Inv(s) && Legal(s, actions)
    ensures Misled(Run(s, actions)) <==> Misled(s) || SomeTrue(s, actions)
    decreases |actions|
  {
    if actions != [] {
      PerformKeepsInv(s, actions[0]);
      StepMisleads(s, actions[0]);
      RunMisleads(Perform(s, actions[0]), actions[1..]);
    }
  }

  /** In every run: some caller is given an answer that is not for its number exactly when an answer
      with the id `true` was taken while request 1 waited. */
  lemma MisledIffTrue(actions: seq<Action>)
    requires Legal(INITIAL, actions)
    ensures Misled(Run(INITIAL, actions)) <==> SomeTrue(INITIAL, actions)
  {
    RunMisleads(INITIAL, actions);
  }

  /** Such a run: request 1 ends with the answer for `true`. */
  lemma TrueAnswersOne(message: Message)
    requires message.id == Boolean(true)
    ensures var actions := [Request, Send(1, true), Take(message), Deliver, Resume(1)];
            && Legal(INITIAL, actions) && 1 in Run(INITIAL, actions).calls
            && Run(INITIAL, actions).calls[1].stage == Finished(Answer(message))
  {
    var waiting := Perform(Perform(INITIAL, Request), Send(1, true));
    var taken := Perform(waiting, Take(message));
    var given := Perform(taken, Deliver);
    assert given.calls[1] == Call(Waiting, 1, Some(message));
    OneStep(given, Resume(1), []);
    OneStep(taken, Deliver, [Resume(1)]);
    OneStep(waiting, Take(message), [Deliver, Resume(1)]);
    OneStep(Perform(INITIAL, Request), Send(1, true), [Take(message), Deliver, Resume(1)]);
    OneStep(INITIAL, Request, [Send(1, true), Take(message), Deliver, Resume(1)]);
  }

  lemma OneStep(s: State, a: Action, rest: seq<Action>)
    requires Allowed(s, a) && Legal(Perform(s, a), rest)
    ensures Legal(s, [a] + rest) && Run(s, [a] + rest) == Run(Perform(s, a), rest)
  {
    assert ([a] + rest)[1..] == rest;
  }
}
