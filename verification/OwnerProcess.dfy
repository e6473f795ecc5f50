/**
  The owner object of crates/devguard: methods that run one whole session, returning early on the
  first call that fails, and keep the registered identity in a field.

  Each method is proved to do what the session's steps do when nothing interleaves with them, so
  what the step machine's runs establish speaks about these methods.
*/
module OwnerProcess {
  import opened Session
  import opened Authority

  /** What each client call of one session returns, should the session get that far; `wroteFirst`
      says whether a failing call had written its frame. */
  datatype Calls = Calls(credential: bool, connect: Reply<()>, role: Reply<Role>, ready: Reply<bool>,
                         instance: Reply<Identity>, asked: bool, grant: Reply<Grant>, wroteFirst: bool)

  /** The event the next call of a session is. */
  function Next(c: Calls, pc: Pc): (e: Event)
    requires !pc.Done?
    ensures Fits(pc, e)
  {
    match pc
    case AtCredential => CredentialRead(c.credential)
    case AtConnect => Connected(c.connect.Ok? || c.wroteFirst, c.connect)
    case AtAuthenticate => Authenticated(c.role.Ok? || c.wroteFirst, c.role)
    case AtStatus(_) => StatusRead(c.ready.Ok? || c.wroteFirst, c.ready)
    case AtRegister => RegisterAnswered(c.instance.Ok? || c.wroteFirst, c.instance)
    case AtSettle(_) => Locked
    case AtAsk => Asked(c.asked)
    case AtAnswer => Answered(c.grant)
  }

  function Remaining(pc: Pc): nat {
    match pc
    case AtCredential => 8
    case AtConnect => 7
    case AtAuthenticate => 6
    case AtStatus(_) => 5
    case AtRegister => 4
    case AtSettle(_) => 3
    case AtAsk => 2
    case AtAnswer => 1
    case Done(_) => 0
  }

  /** The session's steps, with none of another session between them, until it has opened or ended. */
  function Opening(o: Owner, s: State, c: Calls): (r: (Owner, State))
    ensures r.1.pc.Done? || r.1.pc.AtAsk? || r.1.pc.AtAnswer?
    ensures r.1.job == s.job
    decreases Remaining(s.pc)
  {
    if s.pc.Done? || s.pc.AtAsk? || s.pc.AtAnswer? then (o, s)
    else var (p, t) := Advance(o, s, Next(c, s.pc)); Opening(p, t, c)
  }

  /** One call of an opening session that leaves the owner as it is. */
  lemma Taken(o: Owner, s: State, c: Calls) returns (t: State)
    requires !s.pc.Done? && !s.pc.AtSettle? && !s.pc.AtAsk? && !s.pc.AtAnswer?
    ensures (o, t) == Advance(o, s, Next(c, s.pc))
    ensures Opening(o, s, c) == Opening(o, t, c) && (t.pc.Done? ==> Opening(o, s, c) == (o, t))
  {
    t := Advance(o, s, Next(c, s.pc)).1;
  }

  /** The whole session, uninterrupted. */
  function Alone(o: Owner, s: State, c: Calls): (r: (Owner, State))
    ensures r.1.pc.Done?
    decreases Remaining(s.pc)
  {
    if s.pc.Done? then (o, s)
    else var (p, t) := Advance(o, s, Next(c, s.pc)); Alone(p, t, c)
  }

  lemma {:induction false} AloneOpensFirst(o: Owner, s: State, c: Calls)
    ensures var (p, t) := Opening(o, s, c); Alone(o, s, c) == Alone(p, t, c)
    decreases Remaining(s.pc)
  {
    if !(s.pc.Done? || s.pc.AtAsk? || s.pc.AtAnswer?) {
      var (p, t) := Advance(o, s, Next(c, s.pc));
      AloneOpensFirst(p, t, c);
    }
  }

  /** Every call up to the registration came back as it must, for this owner and the identity it first
      registered. */
  predicate Opens(o: Owner, c: Calls) {
    && c.credential && c.connect.Ok? && c.role == Ok(ControlService) && c.ready == Ok(true)
    && c.instance.Ok? && c.instance.value.instanceId == o.instanceId && c.instance.value.pid == o.pid
    && !o.poisoned && (o.registered == None || o.registered == Some(c.instance.value))
  }

  /** The session came as far as its Register. */
  predicate Asks(c: Calls) {
    c.credential && c.connect.Ok? && c.role == Ok(ControlService) && c.ready == Ok(true)
  }

  /** A session that opens has written exactly four frames and is held to the registered identity. */
  lemma OpensWhen(o: Owner, job: Job, c: Calls)
    requires Begin(job).pc.AtCredential? && Opens(o, c)
    ensures var (p, t) := Opening(o, Begin(job), c);
            && p == o.(registered := Some(c.instance.value)) && t.claimed == Some(c.instance.value)
            && t.sent == [Hello, Authenticate, Status, Register(o.instanceId)]
            && t.pc == if job.kind.RegisterOnly? then Done(RegisterEnded(Registration(Registered, None, Some(o.pid)))) else AtAsk
  {
    var t := Taken(o, Begin(job), c);
    t := Taken(o, t, c);
    t := Taken(o, t, c);
    t := Taken(o, t, c);
    t := Taken(o, t, c);
    assert Opening(o, t, c) == Settle(o, t);
  }

  /** The registration of a session that does not open. */
  function StopOf(c: Calls): Registration {
    if !c.credential then Registration(CredentialUnavailable, None, None)
    else if c.connect.Err? then Failed(ConnectStep, c.connect.code)
    else if c.role.Err? then Failed(AuthenticateStep, c.role.code)
    else if c.ready.Err? then Failed(StatusStep, c.ready.code)
    else if c.role.value != ControlService then Registration(RoleMismatch, None, None)
    else if !c.ready.value then Registration(NotReady, None, None)
    else if c.instance.Err? then RegisterRefusal(c.instance.code)
    else Registration(OwnerMismatch, None, None)
  }

  lemma StopsAs(o: Owner, job: Job, c: Calls)
    requires Begin(job).pc.AtCredential? && !Opens(o, c)
    ensures var (p, t) := Opening(o, Begin(job), c);
            && p == o && t.claimed == None
            && t.pc == Done(if job.kind.RegisterOnly? then RegisterEnded(StopOf(c)) else NotSent(StopOf(c)))
  {
    var t := Taken(o, Begin(job), c);
    if !t.pc.Done? {
      t := Taken(o, t, c);
      if !t.pc.Done? {
        t := Taken(o, t, c);
        if !t.pc.Done? {
          t := Taken(o, t, c);
          if !t.pc.Done? {
            t := Taken(o, t, c);
            if !t.pc.Done? {
              assert Opening(o, t, c) == Settle(o, t);
            }
          }
        }
      }
    }
  }

  /** Why a session stopped: which call failed, by its code, or what it did not come back with. */
  ghost predicate Explains(c: Calls, state: RegistrationState, error: Option<Code>) {
    && !state.Registered?
    && (state.CredentialUnavailable? <==> !c.credential)
    && (state.UntrustedAuthority? <==> c.credential && c.connect == Err(Unauthorized))
    && (state.Incompatible? <==> c.credential && c.connect == Err(ResourcePolicyUnsupported))
    && (state.CredentialRefused? <==> c.credential && c.connect.Ok? && c.role == Err(Unauthorized))
    && (state.RoleMismatch? <==>
        c.credential && c.connect.Ok? && c.role.Ok? && c.ready.Ok? && c.role.value != ControlService)
    && (state.NotReady? <==> c.credential && c.connect.Ok? && c.role == Ok(ControlService) && c.ready == Ok(false))
    && (state.OwnerMismatch? <==> Asks(c) && c.instance.Ok?)
    && (state.Refusal? <==>
        && Asks(c) && c.instance.Err?
        && (c.instance.code == Unauthorized || c.instance.code == AttemptConflict
            || c.instance.code == ResourceUnavailable || c.instance.code == InvalidRequest
            || c.instance.code == ResourcePolicyUnsupported))
    && (error == None <==>
        state.CredentialUnavailable? || state.RoleMismatch? || state.NotReady? || state.OwnerMismatch?)
    && (error.Some? ==>
        || c.connect == Err(error.value)
        || (c.connect.Ok? && c.role == Err(error.value))
        || (c.connect.Ok? && c.role.Ok? && c.ready == Err(error.value))
        || (Asks(c) && c.instance == Err(error.value)))
  }

  /** A session that does not open leaves the owner as it is and says exactly why. */
  lemma StopsBecause(o: Owner, job: Job, c: Calls)
    requires Begin(job).pc.AtCredential? && !Opens(o, c)
    ensures var (p, t) := Opening(o, Begin(job), c);
            && p == o && t.pc.Done? && t.claimed == None
            && (if job.kind.RegisterOnly? then t.pc.outcome.RegisterEnded? else t.pc.outcome.NotSent?)
            && t.pc.outcome.registration.pid == None
            && Explains(c, t.pc.outcome.registration.state, t.pc.outcome.registration.error)
  {
    StopsAs(o, job, c);
    StopExplains(c);
  }

  lemma StopExplains(c: Calls)
    ensures StopOf(c).pid == None && Explains(c, StopOf(c).state, StopOf(c).error)
  {
  }

  /** What an opened session makes of its request. */
  lemma AskingEnds(o: Owner, s: State, c: Calls)
    requires s.pc.AtAsk?
    ensures Alone(o, s, c).0 == o
    ensures Alone(o, s, c).1.pc == Done(if c.asked then Judge(o, s.job, c.grant) else Unknown)
  {
    var (p, t) := Advance(o, s, Next(c, s.pc));
    assert Alone(o, s, c) == Alone(p, t, c);
    if c.asked {
      assert Alone(p, t, c) == Advance(p, t, Next(c, t.pc));
    }
  }

  /** A whole request: one that does not encode is refused without a frame; one whose session does not
      open is not sent; otherwise it ends as its answer is to be reported, or Unknown when it was not
      written. */
  lemma RequestEnds(o: Owner, job: Job, c: Calls)
    requires !job.kind.RegisterOnly?
    ensures var (p, t) := Alone(o, Begin(job), c);
            && t.pc.Done?
            && var outcome := t.pc.outcome;
               if !job.valid || job.fingerprint.None? then p == o && outcome == Refused(InvalidRequest) && t.sent == []
               else if !Opens(o, c) then p == o && outcome.NotSent?
               else
                 && p == o.(registered := Some(c.instance.value))
                 && (if c.asked then ReportedAs(p, job, c.grant, outcome) else outcome == Unknown)
  {
    if job.valid && job.fingerprint.Some? {
      AloneOpensFirst(o, Begin(job), c);
      if Opens(o, c) {
        OpensWhen(o, job, c);
        var (p, t) := Opening(o, Begin(job), c);
        AskingEnds(p, t, c);
        ReportsExactly(p, job, c.grant);
      } else {
        StopsBecause(o, job, c);
      }
    }
  }

  lemma TransactThenDeliver(w: World, sid: nat, reply: Reply<Grant>, journal: map<Key, Record>)
    requires sid in w.sessions && w.sessions[sid].pc.AtAnswer? && sid in w.channel && w.channel[sid].Pending?
    requires Transactional(w, w.sessions[sid].job.kind, reply, journal)
    ensures var actions := [Transact(sid, reply, journal), Deliver(sid)];
            && Legal(w, actions, true) && Legal(w, actions, false)
            && var (o, s) := Advance(w.owner, w.sessions[sid], Answered(reply));
               Run(w, actions).owner == o && Run(w, actions).sessions == w.sessions[sid := s]
  {
    var actions := [Transact(sid, reply, journal), Deliver(sid)];
    var v := Perform(w, actions[0]);
    assert actions[1..] == [Deliver(sid)] && actions[1..][1..] == [];
    assert Legal(v, actions[1..], true) && Legal(v, actions[1..], false);
    assert Run(v, actions[1..]) == Perform(v, Deliver(sid));
  }

  /** An uninterrupted session is one of the runs of the interleaved world, with the authority
      answering its request by one transaction. */
  lemma {:induction false} AloneIsARun(w: World, sid: nat, c: Calls, journal: map<Key, Record>)
    returns (actions: seq<Action>)
    requires sid in w.sessions && Transactional(w, w.sessions[sid].job.kind, c.grant, journal)
    requires w.sessions[sid].pc.AtAnswer? ==> sid in w.channel && w.channel[sid].Pending?
    ensures Legal(w, actions, true) && Legal(w, actions, false)
    ensures var v := Run(w, actions);
            && v.owner == Alone(w.owner, w.sessions[sid], c).0
            && sid in v.sessions && v.sessions[sid] == Alone(w.owner, w.sessions[sid], c).1
            && forall other | other in w.sessions && other != sid ::
                 other in v.sessions && v.sessions[other] == w.sessions[other]
    decreases Remaining(w.sessions[sid].pc)
  {
    var s := w.sessions[sid];
    if s.pc.Done? {
      return [];
    }
    if s.pc.AtAnswer? {
      actions := [Transact(sid, c.grant, journal), Deliver(sid)];
      TransactThenDeliver(w, sid, c.grant, journal);
      assert Alone(w.owner, s, c) == Advance(w.owner, s, Answered(c.grant));
      return;
    }
    var move := Move(sid, Next(c, s.pc));
    var v := Perform(w, move);
    var rest := AloneIsARun(v, sid, c, journal);
    actions := [move] + rest;
    assert actions[1..] == rest;
  }

  class OwnerObject {
    const instanceId: string
    const pid: nat
    const consumer: string
    const generation: string
    var registered: Option<Identity>
    var poisoned: bool

    ghost function Value(): Owner
      reads this
    {
      Owner(instanceId, pid, consumer, generation, registered, poisoned)
    }

    constructor (instanceId: string, pid: nat, consumer: string, generation: string)
      ensures Value() == Owner(instanceId, pid, consumer, generation, None, false)
    {
      this.instanceId, this.pid, this.consumer, this.generation := instanceId, pid, consumer, generation;
      registered, poisoned := None, false;
    }

    /** A registered session still open for one request, or the registration that stopped it. */
    method OpenWith(c: Calls, ghost s: State) returns (ok: bool, registration: Registration)
      requires s.pc.AtCredential? && s.sent == []
      modifies this`registered
      ensures var (o, t) := Opening(old(Value()), s, c);
              && Value() == o
              && (ok <==> registration.state.Registered?)
              && (s.job.kind.RegisterOnly? ==> t.pc == Done(RegisterEnded(registration)))
              && (!s.job.kind.RegisterOnly? ==> t.pc == if ok then AtAsk else Done(NotSent(registration)))
    {
      ghost var o := Value();
      ghost var t := Taken(o, s, c);
      if !c.credential {
        return false, Registration(CredentialUnavailable, None, None);
      }
      t := Taken(o, t, c);
      if c.connect.Err? {
        return false, Failed(ConnectStep, c.connect.code);
      }
      t := Taken(o, t, c);
      if c.role.Err? {
        return false, Failed(AuthenticateStep, c.role.code);
      }
      t := Taken(o, t, c);
      if c.ready.Err? {
        return false, Failed(StatusStep, c.ready.code);
      }
      if c.role.value != ControlService {
        return false, Registration(RoleMismatch, None, None);
      }
      if !c.ready.value {
        return false, Registration(NotReady, None, None);
      }
      t := Taken(o, t, c);
      if c.instance.Err? {
        return false, RegisterRefusal(c.instance.code);
      }
      var instance := c.instance.value;
      if instance.instanceId != instanceId || instance.pid != pid {
        return false, Registration(OwnerMismatch, None, None);
      }
      assert Opening(o, t, c) == Settle(o, t);
      if poisoned || (registered.Some? && registered.value != instance) {
        return false, Registration(OwnerMismatch, None, None);
      }
      if registered.None? {
        registered := Some(instance);
      }
      return true, Registration(Registered, None, Some(instance.pid));
    }

    /** One bounded registration session. */
    method RegisterOwner(c: Calls) returns (registration: Registration)
      modifies this`registered
      ensures var (o, t) := Alone(old(Value()), Begin(Job(RegisterOnly, "", true, None)), c);
              Value() == o && t.pc == Done(RegisterEnded(registration))
    {
      var ok;
      AloneOpensFirst(Value(), Begin(Job(RegisterOnly, "", true, None)), c);
      ok, registration := OpenWith(c, Begin(Job(RegisterOnly, "", true, None)));
    }

    /** What a record tells the caller, if it is one of its own for the very request it made. */
    method AttemptOf(job: Job, record: Record) returns (attempt: Option<Attempt>)
      ensures attempt == if Ours(Value(), job, record) then Some(View(record)) else None
    {
      var mine := !poisoned && registered == Some(record.owner);
      if record.key != Key(consumer, generation, job.attemptId) || Some(record.fingerprint) != job.fingerprint || !mine {
        return None;
      }
      return Some(View(record));
    }

    /** Admit, look up, cancel, abandon or observe one attempt. */
    method AttemptRequest(job: Job, c: Calls) returns (answer: Outcome)
      requires !job.kind.RegisterOnly? && !job.kind.BeginLaunch?
      modifies this`registered
      ensures var (o, t) := Alone(old(Value()), Begin(job), c);
              Value() == o && t.pc == Done(answer)
    {
      if !job.valid || job.fingerprint.None? {
        return Refused(InvalidRequest);
      }
      AloneOpensFirst(Value(), Begin(job), c);
      var ok, registration := OpenWith(c, Begin(job));
      if !ok {
        return NotSent(registration);
      }
      AskingEnds(Value(), Opening(old(Value()), Begin(job), c).1, c);
      if !c.asked || c.grant == Err(ResourceControlUnavailable) {
        return Unknown;
      }
      if c.grant.Err? {
        return Refused(c.grant.code);
      }
      var attempt := AttemptOf(job, c.grant.value.record);
      return if attempt.Some? then AttemptIs(attempt.value) else Unknown;
    }

    /** Begin an attempt's launch: the only request that can be answered with a permit. */
    method CommitLaunch(job: Job, c: Calls) returns (answer: Outcome)
      requires job.kind.BeginLaunch?
      modifies this`registered
      ensures var (o, t) := Alone(old(Value()), Begin(job), c);
              Value() == o && t.pc == Done(answer)
    {
      if !job.valid || job.fingerprint.None? {
        return Refused(InvalidRequest);
      }
      AloneOpensFirst(Value(), Begin(job), c);
      var ok, registration := OpenWith(c, Begin(job));
      if !ok {
        return NotSent(registration);
      }
      AskingEnds(Value(), Opening(old(Value()), Begin(job), c).1, c);
      if !c.asked || c.grant == Err(ResourceControlUnavailable) {
        return Unknown;
      }
      if c.grant.Err? {
        return Refused(c.grant.code);
      }
      var attempt := AttemptOf(job, c.grant.value.record);
      var permit := c.grant.value.permit;
      if attempt.Some? && permit.Some? && attempt.value.phase.LaunchCommitted? {
        return Granted(attempt.value, permit.value);
      }
      return Unknown;
    }
  }
}
